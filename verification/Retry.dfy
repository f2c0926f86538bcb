/** One dial over the session cache: get or create, dial, and at most one recovery. */
module Retry {
  import opened Base
  import opened Sessions

  /** What the environment answers to one dial: the refresh of a router-less session, then the router. */
  datatype DialScript = DialScript(recovery: ProbeReply, wire: Result<nat, EdgeError>)

  /**
   The environment of one call. `others` holds, for some of the points where the call gives way, the cache that
   concurrent tasks left behind; points it does not mention are undisturbed.
   */
  datatype Env = Env(
    authenticated: bool,
    create1: Result<Session, EdgeError>,
    dial1: DialScript,
    probe: ProbeReply,
    create2: Result<Session, EdgeError>,
    dial2: DialScript,
    others: map<nat, Cache>)

  function Refreshed(s: Session, authenticated: bool, reply: ProbeReply): Result<Session, EdgeError> {
    if authenticated then DialProbe(s, reply) else Err(NotAuthenticated)
  }

  /** What a dial answers: a router-less session is refreshed first and must come back with routers. */
  function DialResult(s: Session, authenticated: bool, script: DialScript): Result<nat, EdgeError> {
    if s.routers != [] then script.wire
    else match Refreshed(s, authenticated, script.recovery)
      case Err(e) => Err(e)
      case Ok(better) => if better.routers == [] then Err(NoTlsEdgeRouter) else script.wire
  }

  /** The one answer that makes the dial's own recovery evict: an opaque session the controller no longer knows. */
  predicate RecoveryEvicts(s: Session, authenticated: bool, reply: ProbeReply) {
    s.routers == [] && !IsJwt(s) && Refreshed(s, authenticated, reply) == Err(SessionHttp(404))
  }

  /** What a dial leaves of the cache. */
  function AfterDial(m: Cache, s: Session, authenticated: bool, reply: ProbeReply): Cache {
    if s.routers != [] then m
    else if RecoveryEvicts(s, authenticated, reply) then m - {s.serviceId}
    else match Refreshed(s, authenticated, reply)
      case Ok(better) => Recached(m, s.serviceId, s.id, better)
      case Err(_) => m
  }

  /** A failed dial whose session is taken for dead: rejected as invalid, or not refreshable. */
  predicate Dead(s: Session, e: EdgeError, env: Env) {
    IsDialInvalidSession(e) || Refreshed(s, env.authenticated, env.probe).Err?
  }

  /** A cached session with routers is rejected for another reason than being invalid, and the probe finds it alive. */
  predicate Alive(m: Cache, key: string, env: Env) {
    && key in m && m[key].routers != [] && env.authenticated
    && env.dial1.wire.Err? && env.dial1.wire.error != DialRejected("invalid session")
    && (if IsJwt(m[key]) then env.probe.Routers? else env.probe.Detail?)
  }

  /** The second dial's recovery drops the cache entry of this very key. */
  predicate RecoveryForgets(s: Session, key: string, env: Env) {
    s.serviceId == key && RecoveryEvicts(s, env.authenticated, env.dial2.recovery)
  }

  /** What the cache holds of a fresh session that was kept: itself, or what its own recovery made of it. */
  function Kept(s: Session, key: string, env: Env): Session {
    var better := Refreshed(s, env.authenticated, env.dial2.recovery);
    if s.routers == [] && s.serviceId == key && better.Ok? then better.value else s
  }

  /**
   The cache once the retry is over, nobody interfering: the key evicted, and what the second dial made of a fresh
   session.
   */
  function AfterRetry(m: Cache, key: string, dials: seq<Session>, env: Env): Cache {
    if dials == [] then m - {key}
    else
      var r := DialResult(dials[0], env.authenticated, env.dial2);
      var dialled := AfterDial(m[key := dials[0]], dials[0], env.authenticated, env.dial2.recovery);
      if r.Err? && IsDialInvalidSession(r.error) then dialled - {key} else dialled
  }

  /**
   The cache once a connect is over, nobody interfering, told by the sessions it dialled: untouched without one; after
   one, as that dial and the probe of a session found alive left it; otherwise as the retry did.
   */
  function CacheAfter(m: Cache, key: string, dials: seq<Session>, env: Env): Cache {
    if dials == [] then m
    else
      var s := dials[0];
      var first := DialResult(s, env.authenticated, env.dial1);
      var dialled := AfterDial(m[key := s], s, env.authenticated, env.dial1.recovery);
      if first.Ok? then dialled
      else if Dead(s, first.error, env) then AfterRetry(dialled, key, dials[1..], env)
      else Recached(dialled, s.serviceId, s.id, Refreshed(s, env.authenticated, env.probe).value)
  }

  function Disturbed(m: Cache, others: map<nat, Cache>, at: nat): Cache {
    if at in others then others[at] else m
  }

  /** Other tasks run while this one waits. */
  method GiveWay(sessions: DialSessions, others: map<nat, Cache>, at: nat)
    modifies sessions
    ensures sessions.m == Disturbed(old(sessions.m), others, at)
  {
    if at in others {
      sessions.m := others[at];
    }
  }

  /** `get_or_create_dial_session`: only a miss creates, and what it creates is what it caches and returns. */
  method GetOrCreate(sessions: DialSessions, key: string, created: Result<Session, EdgeError>,
                     others: map<nat, Cache>, at: nat)
    returns (r: Result<Session, EdgeError>)
    modifies sessions
    ensures key in old(sessions.m) ==> r == Ok(old(sessions.m)[key]) && sessions.m == old(sessions.m)
    ensures key !in old(sessions.m) ==> r == created
    ensures r.Ok? ==> key in sessions.m && sessions.m[key] == r.value
    ensures key !in old(sessions.m) ==>
              sessions.m == (var waited := Disturbed(old(sessions.m), others, at);
                             if created.Ok? then waited[key := created.value] else waited)
  {
    var hit := sessions.Cached(key);
    if hit.Some? {
      return Ok(hit.value);
    }
    GiveWay(sessions, others, at);
    if created.Ok? {
      sessions.Insert(key, created.value);
    }
    return created;
  }

  /** `refresh_session`: a probe, and a gated write on success. */
  method RefreshSession(sessions: DialSessions, s: Session, authenticated: bool, reply: ProbeReply,
                        others: map<nat, Cache>, at: nat)
    returns (r: Result<Session, EdgeError>)
    modifies sessions
    ensures r == Refreshed(s, authenticated, reply)
    ensures authenticated ==>
              sessions.m == (var waited := Disturbed(old(sessions.m), others, at);
                             if r.Ok? then Recached(waited, s.serviceId, s.id, r.value) else waited)
    ensures !authenticated ==> r == Err(NotAuthenticated) && sessions.m == old(sessions.m)
  {
    if !authenticated {
      return Err(NotAuthenticated);
    }
    r := DialProbe(s, reply);
    GiveWay(sessions, others, at);
    if r.Ok? {
      var wrote := sessions.Recache(s.serviceId, s.id, r.value);
    }
  }

  /** The dial of a session: `recover_empty_edge_routers` when it has no routers, then the wire. */
  method DialSession(sessions: DialSessions, s: Session, authenticated: bool, script: DialScript,
                     others: map<nat, Cache>, at: nat)
    returns (r: Result<nat, EdgeError>)
    modifies sessions
    ensures r == DialResult(s, authenticated, script)
    ensures var waits := s.routers == [] && authenticated;
            var waited := if waits then Disturbed(old(sessions.m), others, at) else old(sessions.m);
            sessions.m == AfterDial(waited, s, authenticated, script.recovery)
  {
    if s.routers == [] {
      var better := RefreshSession(sessions, s, authenticated, script.recovery, others, at);
      if better.Err? {
        if !IsJwt(s) && better.error == SessionHttp(404) {
          sessions.Evict(s.serviceId);
        }
        return Err(better.error);
      }
      if better.value.routers == [] {
        return Err(NoTlsEdgeRouter);
      }
    }
    r := script.wire;
  }

  /**
   The tail of `dial_with_refresh_retry`: evict, recreate, dial exactly once more. A fresh session also rejected as
   invalid is gone on return, whatever other tasks did; any other outcome keeps the fresh session, unless the dial's
   own recovery learnt that the controller does not know it.
   */
  method RetryOnce(sessions: DialSessions, key: string, env: Env)
    returns (r: Result<nat, EdgeError>, dials: seq<Session>)
    modifies sessions
    ensures dials == [] ==> env.create2.Err? && r == Err(env.create2.error)
    ensures dials != [] ==> |dials| == 1 && r == DialResult(dials[0], env.authenticated, env.dial2)
    ensures dials != [] && r == Err(DialRejected("invalid session")) ==> key !in sessions.m
    ensures env.others == map[] ==> (dials == [] <==> env.create2.Err?)
    ensures env.others == map[] ==> sessions.m == AfterRetry(old(sessions.m), key, dials, env)
    ensures env.others == map[] && dials != [] ==> env.create2 == Ok(dials[0])
    ensures env.others == map[] && dials != [] && !(r.Err? && IsDialInvalidSession(r.error)) ==>
              && (key in sessions.m <==> !RecoveryForgets(dials[0], key, env))
              && (key in sessions.m ==> sessions.m[key] == Kept(dials[0], key, env))
  {
    hide DialResult, AfterDial, RecoveryForgets, Kept, AfterRetry;
    ghost var m := sessions.m;
    GiveWay(sessions, env.others, 3);
    sessions.Evict(key);
    GiveWay(sessions, env.others, 4);
    var again := GetOrCreate(sessions, key, env.create2, env.others, 5);
    if again.Err? {
      RetryNothing(m, key, env);
      return Err(again.error), [];
    }
    RetryCache(m, key, again.value, env);
    dials := [again.value];
    r := DialSession(sessions, again.value, env.authenticated, env.dial2, env.others, 6);
    GiveWay(sessions, env.others, 7);
    if r.Err? && IsDialInvalidSession(r.error) {
      sessions.Evict(key);
    } else {
      KeptIff(m, key, again.value, env);
    }
  }

  lemma RetryNothing(m: Cache, key: string, env: Env)
    ensures AfterRetry(m, key, [], env) == m - {key}
  {
  }

  lemma RetryCache(m: Cache, key: string, s: Session, env: Env)
    ensures (m - {key})[key := s] == m[key := s]
    ensures var r := DialResult(s, env.authenticated, env.dial2);
            var dialled := AfterDial(m[key := s], s, env.authenticated, env.dial2.recovery);
            AfterRetry(m, key, [s], env) == if r.Err? && IsDialInvalidSession(r.error) then dialled - {key} else dialled
  {
    hide DialResult, AfterDial, IsDialInvalidSession;
  }

  /** A dial keeps the entry it was made on, refreshed or not, unless its recovery forgets it. */
  lemma KeptIff(m: Cache, key: string, s: Session, env: Env)
    ensures var dialled := AfterDial(m[key := s], s, env.authenticated, env.dial2.recovery);
            && (key in dialled <==> !RecoveryForgets(s, key, env))
            && (key in dialled ==> dialled[key] == Kept(s, key, env))
  {
  }

  /**
   `dial_with_refresh_retry`. Read by the sessions it dials: none (there was no session to be had), one, or two,
   never more; and it probes exactly when the first dial failed for another reason than an invalid session.
   */
  method DialWithRefreshRetry(sessions: DialSessions, key: string, env: Env)
    returns (r: Result<nat, EdgeError>, dials: seq<Session>, probes: nat)
    modifies sessions
    ensures |dials| <= 2 && probes <= 1
    ensures dials == [] ==> env.create1.Err? && r == Err(env.create1.error) && probes == 0
    ensures dials != [] ==>
              var first := DialResult(dials[0], env.authenticated, env.dial1);
              probes == 1 <==> first.Err? && first.error != DialRejected("invalid session")
    ensures |dials| == 1 ==>
              var first := DialResult(dials[0], env.authenticated, env.dial1);
              if first.Err? && (first.error == DialRejected("invalid session")
                                || Refreshed(dials[0], env.authenticated, env.probe).Err?)
              then env.create2.Err? && r == Err(env.create2.error)
              else r == first
    ensures |dials| == 2 ==>
              var first := DialResult(dials[0], env.authenticated, env.dial1);
              && first.Err?
              && (first.error == DialRejected("invalid session")
                  || Refreshed(dials[0], env.authenticated, env.probe).Err?)
              && r == DialResult(dials[1], env.authenticated, env.dial2)
    ensures |dials| == 2 && r == Err(DialRejected("invalid session")) ==> key !in sessions.m
    ensures env.others == map[] && Alive(old(sessions.m), key, env) ==>
              && dials == [old(sessions.m)[key]] && probes == 1 && r == env.dial1.wire
              && key in sessions.m
    ensures env.others == map[] && key in old(sessions.m) && old(sessions.m)[key].routers != []
            && env.dial1.wire == Err(DialRejected("invalid session")) && env.create2.Ok? ==>
              dials == [old(sessions.m)[key], env.create2.value] && probes == 0
    ensures key in old(sessions.m) ==> dials != [] && dials[0] == old(sessions.m)[key]
    ensures key !in old(sessions.m) && dials != [] ==> env.create1 == Ok(dials[0])
    ensures env.others == map[] && |dials| == 2 ==> env.create2 == Ok(dials[1])
    ensures env.others == map[] && |dials| == 2 && !(r.Err? && IsDialInvalidSession(r.error)) ==>
              && (key in sessions.m <==> !RecoveryForgets(dials[1], key, env))
              && (key in sessions.m ==> sessions.m[key] == Kept(dials[1], key, env))
    ensures env.others == map[] ==> sessions.m == CacheAfter(old(sessions.m), key, dials, env)
  {
    hide DialResult, AfterDial, RecoveryForgets, Kept, AfterRetry;
    probes := 0;
    ghost var m := sessions.m;
    var got := GetOrCreate(sessions, key, env.create1, env.others, 0);
    if got.Err? {
      return Err(got.error), [], 0;
    }
    dials := [got.value];
    assert key in m ==> m[key := got.value] == m;
    if got.value.routers != [] {
      DialWithRouters(m[key := got.value], got.value, env.authenticated, env.dial1);
    }
    r := DialSession(sessions, got.value, env.authenticated, env.dial1, env.others, 1);
    if r.Ok? {
      return;
    }
    var dead := IsDialInvalidSession(r.error);
    if !dead {
      var refreshed := RefreshSession(sessions, got.value, env.authenticated, env.probe, env.others, 2);
      probes := 1;
      dead := refreshed.Err?;
    }
    if dead {
      var more;
      r, more := RetryOnce(sessions, key, env);
      dials := dials + more;
      assert dials[1..] == more;
    }
  }

  /**
   A second failure other than an invalid session need not keep the fresh session: a router-less opaque session whose
   refresh answers 404 leaves the cache although no router ever judged it.
   */
  lemma FreshSessionForgotten(key: string)
    ensures var s := Session("fresh", "opaque", key, Dial, "", "", []);
            var script := DialScript(Refuses(SessionHttp(404)), Ok(0));
            && DialResult(s, true, script) == Err(SessionHttp(404))
            && !IsDialInvalidSession(SessionHttp(404))
            && key !in AfterDial(map[key := s], s, true, script.recovery)
  {
    var s := Session("fresh", "opaque", key, Dial, "", "", []);
    assert !IsJwt(s) by {
      assert s.token[0] == 'o';
    }
  }

  /** A session with routers is dialled as it is, and the cache stays. */
  lemma DialWithRouters(m: Cache, s: Session, authenticated: bool, script: DialScript)
    requires s.routers != []
    ensures DialResult(s, authenticated, script) == script.wire
    ensures AfterDial(m, s, authenticated, script.recovery) == m
  {
  }

  /** One without is refreshed, and dialled if it comes back with some; the fresh session is cached either way. */
  lemma DialRecovers(m: Cache, s: Session, routers: seq<string>, body: Session, wire: Result<nat, EdgeError>)
    requires s.routers == []
    ensures IsJwt(s) ==>
              && DialResult(s, true, DialScript(Routers(routers), wire)) ==
                 (if routers == [] then Err(NoTlsEdgeRouter) else wire)
              && AfterDial(m, s, true, Routers(routers)) ==
                 (if s.serviceId in m && m[s.serviceId].id == s.id then m[s.serviceId := s.(routers := routers)] else m)
    ensures !IsJwt(s) ==>
              && DialResult(s, true, DialScript(Detail(body), wire)) ==
                 (if body.routers == [] then Err(NoTlsEdgeRouter) else wire)
              && AfterDial(m, s, true, Detail(body)) ==
                 (if s.serviceId in m && m[s.serviceId].id == s.id then m[s.serviceId := body] else m)
  {
    hide IsJwt;
  }

  /** A recovery that fails is the dial's error; it evicts an opaque session on a 404, and otherwise touches nothing. */
  lemma DialFailsToRecover(m: Cache, s: Session, e: EdgeError, wire: Result<nat, EdgeError>)
    requires s.routers == []
    ensures DialResult(s, true, DialScript(Refuses(e), wire)) == Err(e)
    ensures AfterDial(m, s, true, Refuses(e)) == if !IsJwt(s) && e == SessionHttp(404) then m - {s.serviceId} else m
    ensures DialResult(s, false, DialScript(Refuses(e), wire)) == Err(NotAuthenticated)
    ensures AfterDial(m, s, false, Refuses(e)) == m
  {
    hide IsJwt;
  }

  /** Whatever a connect goes through, undisturbed it leaves the entries of other services alone. */
  lemma OtherKeysStay(m: Cache, key: string, dials: seq<Session>, env: Env, k: string)
    requires k in m && k != key && |dials| <= 2 && forall i :: 0 <= i < |dials| ==> dials[i].serviceId != k
    ensures k in CacheAfter(m, key, dials, env) && CacheAfter(m, key, dials, env)[k] == m[k]
  {
    if dials != [] {
      var s := dials[0];
      var dialled := AfterDial(m[key := s], s, env.authenticated, env.dial1.recovery);
      DialSpares(m[key := s], s, env.authenticated, env.dial1.recovery, k);
      if |dials| == 2 {
        DialSpares(dialled[key := dials[1]], dials[1], env.authenticated, env.dial2.recovery, k);
      }
    }
    hide AfterDial, DialResult, Refreshed;
  }

  lemma DialSpares(m: Cache, s: Session, authenticated: bool, reply: ProbeReply, k: string)
    requires k in m && k != s.serviceId
    ensures k in AfterDial(m, s, authenticated, reply) && AfterDial(m, s, authenticated, reply)[k] == m[k]
  {
  }
}
