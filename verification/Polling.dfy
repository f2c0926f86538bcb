/** Fetching the service list page by page, and storing a poll's result. */
module ServiceFetch {
  import opened Base
  import opened Services
  import Sessions

  const PAGE_LIMIT := 500

  datatype FetchError = ServicesHttp(status: nat) | ServicesResponse | ControllerUnavailable

  /** One answer to a page request; a script that runs out is a request that got no answer. */
  datatype PageReply = Page(data: seq<Service>, total: int) | Http(status: nat) | Garbled

  function Gathered(script: seq<PageReply>): seq<Service>
    requires forall i :: 0 <= i < |script| ==> script[i].Page?
  {
    if script == [] then [] else Gathered(script[..|script| - 1]) + script[|script| - 1].data
  }

  /** The list's page at an offset. */
  function PageAt(list: seq<Service>, offset: nat): seq<Service> {
    if offset >= |list| then []
    else if offset + PAGE_LIMIT >= |list| then list[offset..]
    else list[offset..offset + PAGE_LIMIT]
  }

  function Upto(list: seq<Service>, offset: nat): seq<Service> {
    if offset >= |list| then list else list[..offset]
  }

  lemma PageExtends(list: seq<Service>, offset: nat)
    ensures Upto(list, offset) + PageAt(list, offset) == Upto(list, offset + PAGE_LIMIT)
  {
  }

  /** The first pages are all there, and none of them says the list is complete. */
  ghost predicate Short(script: seq<PageReply>, n: nat) {
    n <= |script| && forall i :: 0 <= i < n ==> script[i].Page? && PAGE_LIMIT * (i + 1) < script[i].total
  }

  /** The first page to say that the list is complete, with all the pages before it there. */
  ghost predicate Complete(script: seq<PageReply>, used: nat) {
    && 1 <= used <= |script| && Short(script, used - 1)
    && script[used - 1].Page? && PAGE_LIMIT * used >= script[used - 1].total
  }

  lemma ShortNotComplete(script: seq<PageReply>, n: nat)
    requires Short(script, n) && (n < |script| ==> !script[n].Page?)
    ensures forall used: nat :: !Complete(script, used)
  {
  }

  lemma CompleteOnce(script: seq<PageReply>, used: nat, n: nat)
    requires Short(script, n) && n < |script| && script[n].Page? && PAGE_LIMIT * (n + 1) >= script[n].total
    ensures Complete(script, used) <==> used == n + 1
  {
  }

  /** The first request that fails, or gets no answer, with the list still incomplete. */
  ghost predicate Stops(script: seq<PageReply>, n: nat) {
    Short(script, n) && (n < |script| ==> !script[n].Page?)
  }

  function ErrorAt(script: seq<PageReply>, n: nat): FetchError {
    if n < |script| && script[n].Http? then ServicesHttp(script[n].status) else ServicesResponse
  }

  /** An HTTP refusal is its status; a garbled answer, or none, is a response error. */
  lemma ErrorsAre(script: seq<PageReply>, n: nat)
    ensures n < |script| && script[n].Http? ==> ErrorAt(script, n) == ServicesHttp(script[n].status)
    ensures n < |script| && script[n].Garbled? ==> ErrorAt(script, n) == ServicesResponse
    ensures n >= |script| ==> ErrorAt(script, n) == ServicesResponse
  {
  }

  lemma StopsOnce(script: seq<PageReply>, n: nat)
    requires Stops(script, n)
    ensures forall k: nat :: Stops(script, k) <==> k == n
  {
  }

  lemma CompleteNeverStops(script: seq<PageReply>, used: nat)
    requires Complete(script, used)
    ensures forall n: nat :: !Stops(script, n)
  {
    var last := script[used - 1];
  }

  /**
   `do_list_services`: succeeds exactly when some number of answers is complete, with all their data in order; and
   otherwise fails with the error of the first request that did.
   */
  method ListServices(script: seq<PageReply>) returns (r: Result<seq<Service>, FetchError>)
    ensures r.Ok? <==> exists used: nat :: Complete(script, used)
    ensures forall used: nat :: Complete(script, used) ==> r == Ok(Gathered(script[..used]))
    ensures r.Err? <==> exists n: nat :: Stops(script, n)
    ensures forall n: nat :: Stops(script, n) ==> r == Err(ErrorAt(script, n))
    ensures r.Err? ==> r.error == ServicesResponse || r.error.ServicesHttp?
  {
    var out: seq<Service> := [];
    var i, offset := 0, 0;
    while i < |script|
      invariant 0 <= i <= |script| && offset == PAGE_LIMIT * i
      invariant Short(script, i)
      invariant out == Gathered(script[..i])
    {
      var reply := script[i];
      if !reply.Page? {
        ShortNotComplete(script, i);
        StopsOnce(script, i);
        assert Stops(script, i);
      }
      if reply.Http? {
        return Err(ServicesHttp(reply.status));
      }
      if reply.Garbled? {
        return Err(ServicesResponse);
      }
      assert script[..i + 1][..i] == script[..i];
      out := out + reply.data;
      offset := offset + PAGE_LIMIT;
      i := i + 1;
      if offset >= reply.total {
        forall used: nat
          ensures Complete(script, used) <==> used == i
        {
          CompleteOnce(script, used, i - 1);
        }
        CompleteNeverStops(script, i);
        assert Complete(script, i);
        return Ok(out);
      }
    }
    ShortNotComplete(script, i);
    StopsOnce(script, i);
    assert Stops(script, i);
    return Err(ServicesResponse);
  }

  /** Answers given while the list does not change. */
  ghost predicate Serves(script: seq<PageReply>, list: seq<Service>) {
    && (forall i :: 0 <= i < |script| ==> script[i] == Page(PageAt(list, PAGE_LIMIT * i), |list|))
    && PAGE_LIMIT * |script| >= |list| && script != []
  }

  lemma {:induction false} GatheredPrefix(script: seq<PageReply>, list: seq<Service>, n: nat)
    requires n <= |script| && forall i :: 0 <= i < n ==> script[i] == Page(PageAt(list, PAGE_LIMIT * i), |list|)
    ensures Gathered(script[..n]) == Upto(list, PAGE_LIMIT * n)
  {
    if n == 0 {
    } else {
      GatheredPrefix(script, list, n - 1);
      assert script[..n][..n - 1] == script[..n - 1];
      PageExtends(list, PAGE_LIMIT * (n - 1));
    }
  }

  lemma {:induction false} FirstComplete(script: seq<PageReply>, list: seq<Service>, n: nat) returns (used: nat)
    requires Serves(script, list) && 1 <= n <= |script|
    requires Short(script, n - 1)
    ensures Complete(script, used)
    decreases |script| - n
  {
    if PAGE_LIMIT * n >= |list| {
      used := n;
    } else {
      used := FirstComplete(script, list, n + 1);
    }
  }

  /** Against a list that stays put, paging returns exactly that list, however long. */
  lemma StableListIsFetched(script: seq<PageReply>, list: seq<Service>)
    requires Serves(script, list)
    ensures exists used: nat :: Complete(script, used)
    ensures forall used: nat :: Complete(script, used) ==> Gathered(script[..used]) == list
  {
    var first := FirstComplete(script, list, 1);
    forall used: nat | Complete(script, used)
      ensures Gathered(script[..used]) == list
    {
      GatheredPrefix(script, list, used);
    }
  }

  // ----- storing a poll --------------------------------------------------------------------------------

  function RemovedIds(events: seq<Event>): set<string> {
    if events == [] then {}
    else RemovedIds(events[..|events| - 1])
         + (if events[|events| - 1].Removed? then {events[|events| - 1].service.id} else {})
  }

  lemma {:induction false} RemovedIdsAt(events: seq<Event>, id: string)
    ensures id in RemovedIds(events) <==>
            exists i :: 0 <= i < |events| && events[i].Removed? && events[i].service.id == id
  {
    if events == [] {
    } else {
      var front := events[..|events| - 1];
      RemovedIdsAt(front, id);
      assert forall i :: 0 <= i < |front| ==> front[i] == events[i];
      if id in RemovedIds(front) {
        var i :| 0 <= i < |front| && front[i].Removed? && front[i].service.id == id;
        assert events[i].service.id == id;
      }
    }
  }

  lemma {:induction false} NamesOfAt(events: seq<Event>, n: string)
    ensures n in NamesOf(events) <==> exists i :: 0 <= i < |events| && events[i].service.name == n
  {
    if events == [] {
    } else {
      var front := events[..|events| - 1];
      NamesOfAt(front, n);
      assert forall i :: 0 <= i < |front| ==> front[i] == events[i];
      if n in NamesOf(front) {
        var i :| 0 <= i < |front| && front[i].service.name == n;
        assert events[i].service.name == n;
      }
    }
  }

  lemma {:induction false} UpsertsNotRemovals(c: Cache, ids: set<string>, fetched: seq<Service>)
    ensures forall e :: e in Upserts(c, ids, fetched) ==> !e.Removed?
  {
    if fetched == [] {
    } else {
      UpsertsNotRemovals(c, ids, fetched[..|fetched| - 1]);
    }
  }

  lemma RemovalsComeFirst(c: Cache, fetched: seq<Service>, events: seq<Event>, i: nat)
    requires IsDiff(c, fetched, events) && i < |events| && events[i].Removed?
    ensures i < |Vanished(c, Ids(fetched))|
  {
    hide Upserts, Removals, NamesOf, Ids, Vanished;
    var k := |Vanished(c, Ids(fetched))|;
    UpsertsNotRemovals(c, Ids(fetched), fetched);
    assert forall j :: k <= j < |events| ==> events[j] == events[k..][j - k];
  }

  /** A diff removes exactly the cached ids that were not fetched. */
  lemma DiffRemovesIds(c: Cache, fetched: seq<Service>, events: seq<Event>, id: string)
    requires IsDiff(c, fetched, events)
    ensures id in RemovedIds(events) <==> id !in Ids(fetched) && exists n :: n in c && c[n].id == id
  {
    var ids := Ids(fetched);
    var gone := Vanished(c, ids);
    RemovedIdsAt(events, id);
    if id in RemovedIds(events) {
      var i :| 0 <= i < |events| && events[i].Removed? && events[i].service.id == id;
      RemovalsComeFirst(c, fetched, events, i);
      assert events[..|gone|][i] == events[i];
      assert IsRemoval(c, events[..|gone|][i]);
      NamesOfAt(events[..|gone|], events[i].service.name);
    }
    if id !in ids && exists n :: n in c && c[n].id == id {
      var n :| n in c && c[n].id == id;
      assert n in gone;
      NamesOfAt(events[..|gone|], n);
      var i :| 0 <= i < |gone| && events[..|gone|][i].service.name == n;
      assert IsRemoval(c, events[..|gone|][i]);
      assert events[i] == events[..|gone|][i];
    }
  }

  /** The answer of the update check. */
  datatype CheckReply = Instant(at: int) | CheckHttp(status: nat) | CheckFailed

  /** `deleteServiceSessions`: drop the dial session of every removed service. */
  method EvictRemoved(sessions: Sessions.DialSessions, events: seq<Event>)
    modifies sessions
    ensures sessions.m == old(sessions.m) - RemovedIds(events)
  {
    var i := 0;
    while i < |events|
      invariant 0 <= i <= |events| && sessions.m == old(sessions.m) - RemovedIds(events[..i])
    {
      assert events[..i + 1][..i] == events[..i];
      if events[i].Removed? {
        sessions.Evict(events[i].service.id);
      }
      i := i + 1;
    }
    assert events[..|events|] == events;
  }

  class ServiceClient {
    var lastUpdate: Option<int>
    const watcher: ServiceWatcher
    const sessions: Sessions.DialSessions

    constructor ()
      ensures lastUpdate == None && watcher.Valid() && watcher.cache == map[] && sessions.m == map[]
      ensures fresh(watcher) && fresh(sessions)
    {
      lastUpdate := None;
      watcher := new ServiceWatcher();
      sessions := new Sessions.DialSessions();
    }

    /**
     `store_and_process_free`: the instant is overwritten, the cache reconciled, and the dial sessions of exactly the
     removed services dropped; a session of a fetched service is never touched.
     */
    method StoreAndProcess(fetched: seq<Service>, at: Option<int>) returns (events: seq<Event>)
      requires watcher.Valid()
      modifies this`lastUpdate, watcher, sessions
      ensures watcher.Valid() && lastUpdate == at
      ensures IsDiff(old(watcher.cache), fetched, events) && watcher.cache == Updated(old(watcher.cache), fetched)
      ensures watcher.calls == old(watcher.calls) + FanOut(events, watcher.listeners)
      ensures watcher.listeners == old(watcher.listeners)
      ensures sessions.m == old(sessions.m) - RemovedIds(events)
      ensures forall id :: id in old(sessions.m) && id in Ids(fetched) ==>
                             id in sessions.m && sessions.m[id] == old(sessions.m)[id]
      ensures forall n :: n in old(watcher.cache) && old(watcher.cache)[n].id !in Ids(fetched) ==>
                            old(watcher.cache)[n].id !in sessions.m
    {
      lastUpdate := at;
      events := watcher.Process(fetched);
      DiffSpares(old(watcher.cache), fetched, events);
      hide *;
      EvictRemoved(sessions, events);
    }

    /** `poll_services`: a forced poll forgets the instant, so that the next check fetches. */
    method PollServices(script: seq<PageReply>) returns (r: Result<seq<Event>, FetchError>)
      requires watcher.Valid()
      modifies this`lastUpdate, watcher, sessions
      ensures watcher.Valid()
      ensures r.Ok? <==> exists used: nat :: Complete(script, used)
      ensures forall n: nat :: Stops(script, n) ==> r == Err(ErrorAt(script, n))
      ensures r.Err? ==> lastUpdate == old(lastUpdate) && watcher.cache == old(watcher.cache)
      ensures r.Ok? ==> lastUpdate == None
      ensures watcher.listeners == old(watcher.listeners)
      ensures watcher.calls == old(watcher.calls) + if r.Ok? then FanOut(r.value, watcher.listeners) else []
      ensures sessions.m == if r.Ok? then old(sessions.m) - RemovedIds(r.value) else old(sessions.m)
      ensures forall used: nat :: Complete(script, used) ==>
                && r.Ok? && IsDiff(old(watcher.cache), Gathered(script[..used]), r.value)
                && watcher.cache == Updated(old(watcher.cache), Gathered(script[..used]))
    {
      var fetched := ListServices(script);
      if fetched.Err? {
        return Err(fetched.error);
      }
      var events := StoreAndProcess(fetched.value, None);
      return Ok(events);
    }

    /**
     `poll_services_if_changed`: an unavailable controller changes nothing; an instant equal to the stored one changes
     nothing and asks for no page; anything else fetches, and stores the instant it checked, or none.
     */
    method PollServicesIfChanged(check: CheckReply, script: seq<PageReply>) returns (r: Result<seq<Event>, FetchError>)
      requires watcher.Valid()
      modifies this`lastUpdate, watcher, sessions
      ensures watcher.Valid()
      ensures check == CheckHttp(503) ==> r == Err(ControllerUnavailable)
      ensures check.Instant? && old(lastUpdate) == Some(check.at) ==> r == Ok([])
      ensures FetchNeeded(check, old(lastUpdate)) ==> (r.Ok? <==> exists used: nat :: Complete(script, used))
      ensures forall n: nat :: FetchNeeded(check, old(lastUpdate)) && Stops(script, n) ==> r == Err(ErrorAt(script, n))
      ensures r.Err? || !FetchNeeded(check, old(lastUpdate)) ==>
                lastUpdate == old(lastUpdate) && watcher.cache == old(watcher.cache)
      ensures !FetchNeeded(check, old(lastUpdate)) ==> r == Ok([]) || r == Err(ControllerUnavailable)
      ensures watcher.listeners == old(watcher.listeners)
      ensures watcher.calls == old(watcher.calls) + if r.Ok? then FanOut(r.value, watcher.listeners) else []
      ensures sessions.m == if r.Ok? then old(sessions.m) - RemovedIds(r.value) else old(sessions.m)
      ensures r.Ok? && FetchNeeded(check, old(lastUpdate)) ==>
                lastUpdate == if check.Instant? then Some(check.at) else None
      ensures forall used: nat :: FetchNeeded(check, old(lastUpdate)) && Complete(script, used) ==>
                && r.Ok? && IsDiff(old(watcher.cache), Gathered(script[..used]), r.value)
                && watcher.cache == Updated(old(watcher.cache), Gathered(script[..used]))
    {
      if check == CheckHttp(503) {
        return Err(ControllerUnavailable);
      }
      var at := if check.Instant? then Some(check.at) else None;
      if check.Instant? && lastUpdate == at {
        return Ok([]);
      }
      var fetched := ListServices(script);
      if fetched.Err? {
        return Err(fetched.error);
      }
      var events := StoreAndProcess(fetched.value, at);
      return Ok(events);
    }
  }

  predicate FetchNeeded(check: CheckReply, stored: Option<int>) {
    check != CheckHttp(503) && (check.Instant? ==> stored != Some(check.at))
  }

  /** A poll fetches unless the controller is unavailable or shows the instant already stored. */
  lemma FetchNeededIff(check: CheckReply, stored: Option<int>)
    ensures check.Instant? ==> (FetchNeeded(check, stored) <==> stored != Some(check.at))
    ensures check.CheckHttp? ==> (FetchNeeded(check, stored) <==> check.status != 503)
    ensures check.CheckFailed? ==> FetchNeeded(check, stored)
  {
  }

  /** Pages hold 500: a stable list takes one request per 500 services begun, and one when it is empty. */
  lemma PagesAsked(script: seq<PageReply>, list: seq<Service>, used: nat)
    requires Serves(script, list) && Complete(script, used)
    ensures used == if |list| == 0 then 1 else (|list| + 499) / 500
  {
    if used > 1 {
      assert script[used - 2].total == |list|;
    }
  }

  lemma DiffSpares(c: Cache, fetched: seq<Service>, events: seq<Event>)
    requires IsDiff(c, fetched, events)
    ensures RemovedIds(events) !! Ids(fetched)
    ensures forall n :: n in c && c[n].id !in Ids(fetched) ==> c[n].id in RemovedIds(events)
  {
    forall id | id in RemovedIds(events)
      ensures id !in Ids(fetched)
    {
      DiffRemovesIds(c, fetched, events, id);
    }
    forall n | n in c && c[n].id !in Ids(fetched)
      ensures c[n].id in RemovedIds(events)
    {
      DiffRemovesIds(c, fetched, events, c[n].id);
    }
  }
}

/** One poll at a time, with the controller free to change between any two of its requests. */
module GatedPolling {
  import opened Base
  import opened Services
  import opened ServiceFetch

  /** Where the poll is: idle, asking for pages, holding a full fetch, or between storing and reconciling. */
  datatype Poll =
    | Idle
    | Fetching(at: Option<int>, offset: nat, out: seq<Service>)
    | Fetched(at: Option<int>, out: seq<Service>)
    | Storing(out: seq<Service>)

  /** `past` is every instant the controller has ever shown as its last change. */
  datatype State = State(
    services: seq<Service>,
    changeAt: int,
    past: set<int>,
    stored: Option<int>,
    cache: Cache,
    poll: Poll)

  datatype Step =
    | Change(services: seq<Service>, at: int)
    | Check
    | CheckUnavailable
    | CheckFails
    | Force
    | NextPage
    | FetchFails
    | Store
    | Reconcile
    | Prime(list: seq<Service>)

  /** The cache holds every current service under its name, and no id the controller does not list. */
  ghost predicate InSync(c: Cache, services: seq<Service>) {
    && (forall i :: 0 <= i < |services| ==> services[i].name in c && c[services[i].name] == services[i])
    && (forall n :: n in c ==> c[n].id in Ids(services))
  }

  /** What a list used for priming must satisfy to leave a synchronised cache synchronised. */
  ghost predicate PrimeMatches(list: seq<Service>, services: seq<Service>) {
    && Ids(list) <= Ids(services)
    && forall i :: 0 <= i < |services| ==>
                     if services[i].name in Names(list) then services[i] in list else services[i].id in Ids(list)
  }

  ghost predicate Enabled(s: State, step: Step) {
    match step
    case Change(list, at) => DistinctNames(list) && at !in s.past
    case Check => s.poll.Idle?
    case CheckUnavailable => s.poll.Idle?
    case CheckFails => s.poll.Idle?
    case Force => s.poll.Idle?
    case NextPage => s.poll.Fetching?
    case FetchFails => s.poll.Fetching?
    case Store => s.poll.Fetched?
    case Reconcile => s.poll.Storing?
    case Prime(list) => DistinctNames(list)
  }

  /** The gate would stay shut: the stored instant is the current one, and no reconcile is pending. */
  predicate Shut(s: State) {
    s.stored == Some(s.changeAt) && !s.poll.Storing?
  }

  /** A step that primes a shut gate with a list that matches what the controller has, or does not prime it at all. */
  ghost predicate Safe(s: State, step: Step) {
    step.Prime? && Shut(s) ==> PrimeMatches(step.list, s.services)
  }

  ghost function Apply(s: State, step: Step): State
    requires Enabled(s, step)
  {
    match step
    case Change(list, at) => s.(services := list, changeAt := at, past := s.past + {at})
    case Check => if s.stored == Some(s.changeAt) then s else s.(poll := Fetching(Some(s.changeAt), 0, []))
    case CheckUnavailable => s
    case CheckFails => s.(poll := Fetching(None, 0, []))
    case Force => s.(poll := Fetching(None, 0, []))
    case NextPage =>
      var p := s.poll;
      var out := p.out + PageAt(s.services, p.offset);
      if p.offset + PAGE_LIMIT >= |s.services| then s.(poll := Fetched(p.at, out))
      else s.(poll := Fetching(p.at, p.offset + PAGE_LIMIT, out))
    case FetchFails => s.(poll := Idle)
    case Store => s.(stored := s.poll.at, poll := Storing(s.poll.out))
    case Reconcile => s.(cache := Updated(s.cache, s.poll.out), poll := Idle)
    case Prime(list) => s.(cache := Updated(s.cache, list))
  }

  ghost predicate Init(s: State) {
    && DistinctNames(s.services) && s.past == {s.changeAt}
    && s.stored == None && s.cache == map[] && s.poll == Idle
  }

  ghost predicate IsRun(run: seq<State>, steps: seq<Step>) {
    && |run| == |steps| + 1 && Init(run[0])
    && forall i :: 0 <= i < |steps| ==> Enabled(run[i], steps[i]) && run[i + 1] == Apply(run[i], steps[i])
  }

  /** What the poll holds is the current list, as far as it got, if the controller has not changed since the check. */
  ghost predicate PollInv(s: State) {
    match s.poll
    case Idle => true
    case Fetching(at, offset, out) => at == Some(s.changeAt) ==> out == Upto(s.services, offset)
    case Fetched(at, out) => at == Some(s.changeAt) ==> out == s.services
    case Storing(out) => s.stored == Some(s.changeAt) ==> out == s.services
  }

  ghost predicate Known(s: State, at: Option<int>) {
    at.Some? ==> at.value in s.past
  }

  /** True in every run, whatever is primed. */
  ghost predicate Inv(s: State) {
    && DistinctNames(s.services) && s.changeAt in s.past && Known(s, s.stored)
    && (s.poll.Fetching? || s.poll.Fetched? ==> Known(s, s.poll.at))
    && PollInv(s)
  }

  /** What the gate promises. */
  ghost predicate Promise(s: State) {
    Shut(s) ==> InSync(s.cache, s.services)
  }

  /** A poll of the current list synchronises any cache. */
  lemma FetchSyncs(c: Cache, services: seq<Service>)
    requires DistinctNames(services)
    ensures InSync(Updated(c, services), services)
  {
    var after := Updated(c, services);
    forall i | 0 <= i < |services|
      ensures services[i].name in after && after[services[i].name] == services[i]
    {
      KeepsFetched(c, services, i);
    }
    forall n | n in after
      ensures after[n].id in Ids(services)
    {
      OnlyRenamesLinger(c, services, n);
    }
  }

  lemma KeepsFetched(c: Cache, fetched: seq<Service>, i: nat)
    requires DistinctNames(fetched) && i < |fetched|
    ensures fetched[i].name in Updated(c, fetched) && Updated(c, fetched)[fetched[i].name] == fetched[i]
  {
    var n := fetched[i].name;
    assert n in Names(fetched);
    PutsAt(c - Vanished(c, Ids(fetched)), fetched, n);
    var kept := Updated(c, fetched)[n];
    assert kept in fetched && kept.name == n;
    var j :| 0 <= j < |fetched| && fetched[j] == kept;
    assert i == j;
  }

  /** What a primed list makes of a name: its own version, or the cached one if its id is listed. */
  lemma PrimedAt(c: Cache, list: seq<Service>, n: string)
    requires DistinctNames(list)
    ensures n in Names(list) ==> n in Updated(c, list) && Updated(c, list)[n] in list && Updated(c, list)[n].name == n
    ensures n !in Names(list) ==> (n in Updated(c, list) <==> Survives(c, Ids(list), n))
    ensures n !in Names(list) && n in Updated(c, list) ==> Updated(c, list)[n] == c[n]
  {
    PutsAt(c - Vanished(c, Ids(list)), list, n);
  }

  /**
   Priming a synchronised cache, exactly: it stays synchronised if and only if the primed list names no id the
   controller lacks, carries the current version of every current service it names, and the id of every other.
   */
  lemma PrimeKeepsSyncIff(c: Cache, list: seq<Service>, services: seq<Service>)
    requires InSync(c, services) && DistinctNames(list) && DistinctNames(services)
    ensures InSync(Updated(c, list), services) <==> PrimeMatches(list, services)
  {
    var after := Updated(c, list);
    if InSync(after, services) {
      PrimeMatchesIfSynced(c, list, services);
    }
    if PrimeMatches(list, services) {
      SyncedIfPrimeMatches(c, list, services);
    }
  }

  lemma PrimeMatchesIfSynced(c: Cache, list: seq<Service>, services: seq<Service>)
    requires InSync(c, services) && DistinctNames(list) && InSync(Updated(c, list), services)
    ensures PrimeMatches(list, services)
  {
    forall id | id in Ids(list)
      ensures id in Ids(services)
    {
      var i :| 0 <= i < |list| && list[i].id == id;
      KeepsFetched(c, list, i);
    }
    forall i | 0 <= i < |services|
      ensures if services[i].name in Names(list) then services[i] in list else services[i].id in Ids(list)
    {
      PrimedAt(c, list, services[i].name);
    }
  }

  lemma SyncedIfPrimeMatches(c: Cache, list: seq<Service>, services: seq<Service>)
    requires InSync(c, services) && DistinctNames(list) && PrimeMatches(list, services)
    ensures InSync(Updated(c, list), services)
  {
    var after := Updated(c, list);
    forall i | 0 <= i < |services|
      ensures services[i].name in after && after[services[i].name] == services[i]
    {
      PrimedAt(c, list, services[i].name);
      if services[i].name in Names(list) {
        var j :| 0 <= j < |list| && list[j] == services[i];
        KeepsFetched(c, list, j);
      }
    }
    forall n | n in after
      ensures after[n].id in Ids(services)
    {
      OnlyRenamesLinger(c, list, n);
    }
  }

  lemma InvStep(s: State, step: Step)
    requires Inv(s) && Enabled(s, step)
    ensures Inv(Apply(s, step))
  {
    if step.NextPage? {
      PageExtends(s.services, s.poll.offset);
    }
  }

  lemma PromiseStep(s: State, step: Step)
    requires Inv(s) && Promise(s) && Enabled(s, step) && Safe(s, step)
    ensures Promise(Apply(s, step))
  {
    if step.Reconcile? && s.stored == Some(s.changeAt) {
      FetchSyncs(s.cache, s.services);
    }
    if step.Prime? && Shut(s) {
      PrimeKeepsSyncIff(s.cache, step.list, s.services);
    }
  }

  lemma {:induction false} InvHolds(run: seq<State>, steps: seq<Step>, i: nat)
    requires IsRun(run, steps) && i < |run|
    ensures Inv(run[i])
  {
    if i == 0 {
    } else {
      InvHolds(run, steps, i - 1);
      InvStep(run[i - 1], steps[i - 1]);
    }
  }

  /**
   No change is ever missed: in every run, with changes between any two requests, failed checks, failed fetches,
   forced polls and safe primes, whenever the stored instant is the controller's current one the cache is synchronised.
   */
  lemma {:induction false} NoChangeMissed(run: seq<State>, steps: seq<Step>, i: nat)
    requires IsRun(run, steps) && i < |run|
    requires forall k :: 0 <= k < i ==> Safe(run[k], steps[k])
    ensures Promise(run[i])
  {
    if i == 0 {
    } else {
      NoChangeMissed(run, steps, i - 1);
      InvHolds(run, steps, i - 1);
      PromiseStep(run[i - 1], steps[i - 1]);
    }
  }

  /** What a caller can see to: priming only while no instant is stored, with any list at all, misses nothing. */
  lemma PrimingFirstMissesNothing(run: seq<State>, steps: seq<Step>, i: nat)
    requires IsRun(run, steps) && i < |run|
    requires forall k :: 0 <= k < i && steps[k].Prime? ==> run[k].stored == None
    ensures Promise(run[i])
  {
    NoChangeMissed(run, steps, i);
  }

  /** A list that a synchronised cache must not be primed with: some service in an old version, or one that is gone. */
  function Outdated(services: seq<Service>): seq<Service> {
    if services == [] then [Service("", "", false, [], [], map[])]
    else [services[0].(encryptionRequired := !services[0].encryptionRequired)]
  }

  lemma OutdatedMismatch(services: seq<Service>)
    requires DistinctNames(services)
    ensures DistinctNames(Outdated(services)) && !PrimeMatches(Outdated(services), services)
  {
    var list := Outdated(services);
    assert list[0].id in Ids(list) && list[0].name in Names(list);
    assert services != [] ==> services[0] !in list;
  }

  /**
   Exactly when an idle client may be primed with whatever list: when the stored instant is not the current one. With
   the current one stored, some list leaves the gate shut on a cache that is out of step, and a check fetches nothing.
   */
  lemma PrimeSafeIff(run: seq<State>, steps: seq<Step>, i: nat)
    requires IsRun(run, steps) && i < |run| && run[i].poll.Idle? && Promise(run[i])
    ensures (forall list :: DistinctNames(list) ==> Promise(Apply(run[i], Prime(list)))) <==> !Shut(run[i])
    ensures Shut(run[i]) ==>
              var primed := Apply(run[i], Prime(Outdated(run[i].services)));
              !InSync(primed.cache, primed.services) && Apply(primed, Check) == primed
  {
    InvHolds(run, steps, i);
    var s := run[i];
    OutdatedMismatch(s.services);
    if Shut(s) {
      PrimeKeepsSyncIff(s.cache, Outdated(s.services), s.services);
      assert !Promise(Apply(s, Prime(Outdated(s.services))));
    }
  }

  /** In particular a check that decides not to fetch finds nothing to fetch. */
  lemma SkippedPollsAreUpToDate(run: seq<State>, steps: seq<Step>, i: nat)
    requires IsRun(run, steps) && i < |steps| && steps[i] == Check && run[i + 1].poll == Idle
    requires forall k :: 0 <= k < i ==> Safe(run[k], steps[k])
    ensures run[i + 1] == run[i] && InSync(run[i].cache, run[i].services)
  {
    assert Enabled(run[i], steps[i]);
    NoChangeMissed(run, steps, i);
  }

  /** The instant a poll under way carries, or has just stored. */
  ghost predicate Carries(s: State, at: int) {
    match s.poll
    case Idle => false
    case Fetching(x, _, _) => x == Some(at)
    case Fetched(x, _) => x == Some(at)
    case Storing(_) => s.stored == Some(at)
  }

  lemma {:induction false} PollKeepsInstant(run: seq<State>, steps: seq<Step>, i: nat, j: nat)
    requires IsRun(run, steps) && i < j < |run|
    requires steps[i] == Check && run[i].stored != Some(run[i].changeAt)
    requires forall k :: i < k < j ==> !steps[k].Change? && !run[k].poll.Idle?
    ensures run[j].changeAt == run[i].changeAt
    ensures run[j].poll.Idle? || Carries(run[j], run[i].changeAt)
    ensures j > i + 1 && steps[j - 1] == Reconcile ==> run[j].stored == Some(run[i].changeAt)
  {
    assert Enabled(run[j - 1], steps[j - 1]) && run[j] == Apply(run[j - 1], steps[j - 1]);
    if j == i + 1 {
    } else {
      PollKeepsInstant(run, steps, i, j - 1);
    }
  }

  /**
   A gated poll that fetches, completes, and meets no change on the way ends synchronised and remembers the instant,
   whatever was primed before or meanwhile.
   */
  lemma UndisturbedPollSyncs(run: seq<State>, steps: seq<Step>, i: nat, j: nat)
    requires IsRun(run, steps) && i + 1 < j < |run|
    requires steps[i] == Check && run[i].stored != Some(run[i].changeAt) && steps[j - 1] == Reconcile
    requires forall k :: i < k < j ==> !steps[k].Change? && !run[k].poll.Idle?
    ensures run[j].stored == Some(run[j].changeAt) && InSync(run[j].cache, run[j].services)
  {
    PollKeepsInstant(run, steps, i, j);
    assert Enabled(run[j - 1], steps[j - 1]) && run[j] == Apply(run[j - 1], steps[j - 1]);
    InvHolds(run, steps, j - 1);
    FetchSyncs(run[j - 1].cache, run[j - 1].services);
  }

  /**
   A whole run of it: a gated poll synchronises the cache, an outdated list is primed, and the next check decides that
   there is nothing to fetch.
   */
  lemma StalePrimeIsMissed(now: Service, at: int) returns (run: seq<State>, steps: seq<Step>)
    ensures var stale := now.(encryptionRequired := !now.encryptionRequired);
            steps == [Check, NextPage, Store, Reconcile, Prime([stale]), Check]
    ensures IsRun(run, steps)
    ensures InSync(run[4].cache, run[4].services)
    ensures run[6] == run[5] && run[6].poll == Idle && !InSync(run[6].cache, run[6].services)
  {
    var stale := now.(encryptionRequired := !now.encryptionRequired);
    steps := [Check, NextPage, Store, Reconcile, Prime([stale]), Check];
    var s0 := State([now], at, {at}, None, map[], Idle);
    var s1 := s0.(poll := Fetching(Some(at), 0, []));
    var s2 := s0.(poll := Fetched(Some(at), [now]));
    var s3 := s0.(stored := Some(at), poll := Storing([now]));
    var s4 := s0.(stored := Some(at), cache := Updated(map[], [now]));
    var s5 := s4.(cache := Updated(s4.cache, [stale]));
    SingleDistinct(now);
    OnePagePoll(now, at);
    PrimeThenCheck(s4, stale);
    Start(s0);
    hide *;
    RunSnoc([s0], [], s0, Check);
    RunSnoc([s0] + [s1], [] + [Check], s1, NextPage);
    RunSnoc([s0] + [s1] + [s2], [] + [Check] + [NextPage], s2, Store);
    RunSnoc([s0] + [s1] + [s2] + [s3], [] + [Check] + [NextPage] + [Store], s3, Reconcile);
    RunSnoc([s0] + [s1] + [s2] + [s3] + [s4], [] + [Check] + [NextPage] + [Store] + [Reconcile], s4, Prime([stale]));
    RunSnoc([s0] + [s1] + [s2] + [s3] + [s4] + [s5],
            [] + [Check] + [NextPage] + [Store] + [Reconcile] + [Prime([stale])], s5, Check);
    run := [s0] + [s1] + [s2] + [s3] + [s4] + [s5] + [s5];
    FetchSyncs(map[], [now]);
    StaleOutOfSync(s4.cache, now);
    assert steps == [] + [Check] + [NextPage] + [Store] + [Reconcile] + [Prime([stale])] + [Check];
  }

  lemma Start(s: State)
    requires Init(s)
    ensures IsRun([s], [])
  {
  }

  lemma RunSnoc(run: seq<State>, steps: seq<Step>, s: State, step: Step)
    requires run != [] && IsRun(run, steps) && run[|run| - 1] == s && Enabled(s, step)
    ensures IsRun(run + [Apply(s, step)], steps + [step])
  {
    hide Apply, Enabled, Init;
  }

  lemma OnePagePoll(now: Service, at: int)
    ensures var s0 := State([now], at, {at}, None, map[], Idle);
            var s1 := s0.(poll := Fetching(Some(at), 0, []));
            var s2 := s0.(poll := Fetched(Some(at), [now]));
            var s3 := s0.(stored := Some(at), poll := Storing([now]));
            var s4 := s0.(stored := Some(at), cache := Updated(map[], [now]));
            && Enabled(s0, Check) && Apply(s0, Check) == s1
            && Enabled(s1, NextPage) && Apply(s1, NextPage) == s2
            && Enabled(s2, Store) && Apply(s2, Store) == s3
            && Enabled(s3, Reconcile) && Apply(s3, Reconcile) == s4
  {
    hide Updated;
    assert [] + [now] == [now] && [now][0..] == [now];
  }

  lemma PrimeThenCheck(s: State, x: Service)
    requires s.poll == Idle && s.stored == Some(s.changeAt)
    ensures var s' := s.(cache := Updated(s.cache, [x]));
            && Enabled(s, Prime([x])) && Apply(s, Prime([x])) == s'
            && Enabled(s', Check) && Apply(s', Check) == s'
  {
    hide Updated;
  }

  lemma SingleDistinct(x: Service)
    ensures DistinctNames([x])
  {
  }

  lemma StaleOutOfSync(c: Cache, now: Service)
    ensures !InSync(Updated(c, [now.(encryptionRequired := !now.encryptionRequired)]), [now])
  {
    var stale := now.(encryptionRequired := !now.encryptionRequired);
    KeepsFetched(c, [stale], 0);
    assert [now][0] == now;
  }

  /** Forced, or checked in vain: a poll that carries no instant. */
  lemma {:induction false} BlindPollCarriesNone(run: seq<State>, steps: seq<Step>, i: nat, j: nat)
    requires IsRun(run, steps) && i < j < |run| && (steps[i] == Force || steps[i] == CheckFails)
    requires forall k :: i < k < j ==> !run[k].poll.Idle?
    ensures run[j].poll.Fetching? || run[j].poll.Fetched? ==> run[j].poll.at == None
    ensures run[j].poll.Storing? ==> run[j].stored == None
    ensures j == i + 1 ==> run[j].poll == Fetching(None, 0, [])
    ensures j > i + 1 && steps[j - 1] == Reconcile ==> run[j].stored == None
  {
    assert Enabled(run[j - 1], steps[j - 1]) && run[j] == Apply(run[j - 1], steps[j - 1]);
    if j == i + 1 {
    } else {
      BlindPollCarriesNone(run, steps, i, j - 1);
    }
  }

  /** So it always fetches, ends with no instant stored, and the next check that is answered fetches again. */
  lemma BlindPollIsRepeated(run: seq<State>, steps: seq<Step>, i: nat, j: nat)
    requires IsRun(run, steps) && i + 1 < j < |steps| && (steps[i] == Force || steps[i] == CheckFails)
    requires forall k :: i < k < j ==> !run[k].poll.Idle?
    requires steps[j - 1] == Reconcile && steps[j] == Check
    ensures run[i + 1].poll == Fetching(None, 0, []) && run[j].stored == None
    ensures run[j + 1].poll == Fetching(Some(run[j].changeAt), 0, [])
  {
    BlindPollCarriesNone(run, steps, i, i + 1);
    BlindPollCarriesNone(run, steps, i, j);
    assert Enabled(run[j], steps[j]) && run[j + 1] == Apply(run[j], steps[j]);
  }

  /** A failed check for an unavailable controller, and a failed fetch, leave cache and instant as they were. */
  lemma FailuresKeep(s: State, step: Step)
    requires Enabled(s, step) && (step == CheckUnavailable || step == FetchFails)
    ensures Apply(s, step).cache == s.cache && Apply(s, step).stored == s.stored && Apply(s, step).poll == Idle
  {
  }

  /** A fetch that meets no change brings the list as it stands, and the reconcile puts it in the cache. */
  lemma PagesBringList(s: State)
    requires s.poll.Fetching? && s.poll.out == Upto(s.services, s.poll.offset)
    ensures var s' := Apply(s, NextPage);
            if s.poll.offset + 500 >= |s.services| then s'.poll == Fetched(s.poll.at, s.services)
            else s'.poll == Fetching(s.poll.at, s.poll.offset + 500, s.services[..s.poll.offset + 500])
  {
    PageExtends(s.services, s.poll.offset);
  }
}
