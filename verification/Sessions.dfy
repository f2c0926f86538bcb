/** The dial-session cache: its gates, and the probes' reconstruction of a session. */
module Sessions {
  import opened Base

  datatype SessionType = Dial | Bind

  datatype Session = Session(
    id: string,
    token: string,
    serviceId: string,
    kind: SessionType,
    apiSessionId: string,
    identityId: string,
    routers: seq<string>)

  type Cache = map<string, Session>

  const JWT_TOKEN_PREFIX := "ey"

  predicate IsJwt(s: Session) {
    JWT_TOKEN_PREFIX <= s.token
  }

  /** Does this entry still carry the identity the snapshot saw? */
  predicate StillThere(m: Cache, key: string, snapshotId: string) {
    key in m && m[key].id == snapshotId
  }

  function Recached(m: Cache, key: string, snapshotId: string, refreshed: Session): (m': Cache) {
    if StillThere(m, key, snapshotId) then m[key := refreshed] else m
  }

  function Purged(m: Cache, key: string, snapshotId: string): (m': Cache) {
    if StillThere(m, key, snapshotId) then m - {key} else m
  }

  /** The ids of the cached sessions. */
  function Ids(m: Cache): set<string> {
    set k | k in m :: m[k].id
  }

  // ----- probes ----------------------------------------------------------------------------------------

  datatype ApiKind = Legacy | Oidc

  datatype EdgeError =
    | SessionHttp(status: nat)
    | SessionResponse
    | NotAuthenticated
    | NoTlsEdgeRouter
    | DialRejected(reason: string)
    | OtherError(code: nat)

  function IsDialInvalidSession(e: EdgeError): bool {
    e == DialRejected("invalid session")
  }

  /** What a controller may answer: a router list from the service endpoint, a body from the detail endpoint. */
  datatype ProbeReply = Routers(routers: seq<string>) | Detail(body: Session) | Refuses(error: EdgeError)

  /** `refresh_session_probe` (dial path): a JWT session keeps all but its routers; an opaque one is taken whole. */
  function DialProbe(s: Session, reply: ProbeReply): (r: Result<Session, EdgeError>) {
    match reply
    case Refuses(e) => Err(e)
    case Routers(rs) => if IsJwt(s) then Ok(s.(routers := rs)) else Err(SessionResponse)
    case Detail(body) => if IsJwt(s) then Err(SessionResponse) else Ok(body)
  }

  /** `refresh_session_probe_durable` (tick): the endpoint follows the api-session, and only routers are taken. */
  function TickProbe(api: ApiKind, s: Session, reply: ProbeReply): (r: Result<Session, EdgeError>) {
    match reply
    case Refuses(e) => Err(e)
    case Routers(rs) => if api.Oidc? then Ok(s.(routers := rs)) else Err(SessionResponse)
    case Detail(body) => if api.Oidc? then Err(SessionResponse) else Ok(s.(routers := body.routers))
  }

  predicate IsProvenDead(api: ApiKind, e: EdgeError) {
    api.Legacy? && e == SessionHttp(404)
  }

  /** A JWT session's refresh brings the routers the controller lists now, and keeps everything else. */
  lemma JwtRefresh(s: Session, routers: seq<string>)
    requires |s.token| >= 2 && s.token[0] == 'e' && s.token[1] == 'y'
    ensures DialProbe(s, Routers(routers)) ==
            Ok(Session(s.id, s.token, s.serviceId, s.kind, s.apiSessionId, s.identityId, routers))
  {
    assert s.token[..2] == "ey";
  }

  /** An opaque session's refresh is the body the controller answers. */
  lemma OpaqueRefresh(s: Session, body: Session)
    requires !(|s.token| >= 2 && s.token[0] == 'e' && s.token[1] == 'y')
    ensures DialProbe(s, Detail(body)) == Ok(body)
  {
  }

  /** A tick takes the routers and nothing else, from the endpoint its api-session calls for. */
  lemma TickRefresh(s: Session, routers: seq<string>, body: Session)
    ensures TickProbe(Oidc, s, Routers(routers)) ==
            Ok(Session(s.id, s.token, s.serviceId, s.kind, s.apiSessionId, s.identityId, routers))
    ensures TickProbe(Legacy, s, Detail(body)) ==
            Ok(Session(s.id, s.token, s.serviceId, s.kind, s.apiSessionId, s.identityId, body.routers))
  {
  }

  /** A refused probe is its error; only a legacy 404 proves death, and one reason alone makes a session invalid. */
  lemma Refusals(s: Session, api: ApiKind, e: EdgeError)
    ensures DialProbe(s, Refuses(e)) == Err(e) && TickProbe(api, s, Refuses(e)) == Err(e)
    ensures IsProvenDead(api, e) <==> api == Legacy && e == SessionHttp(404)
    ensures IsDialInvalidSession(e) <==> e == DialRejected("invalid session")
  {
  }

  // ----- the shared map --------------------------------------------------------------------------------

  class DialSessions {
    var m: Cache

    constructor ()
      ensures m == map[]
    {
      m := map[];
    }

    method Cached(key: string) returns (r: Option<Session>)
      ensures r.Some? <==> key in m
      ensures r.Some? ==> r.value == m[key]
    {
      r := if key in m then Some(m[key]) else None;
    }

    /** `cache_dial_session`: the blind insert of a freshly created session. */
    method Insert(key: string, s: Session)
      modifies this
      ensures m == old(m)[key := s]
    {
      m := m[key := s];
    }

    method Evict(key: string)
      modifies this
      ensures m == old(m) - {key}
    {
      m := m - {key};
    }

    /** `recache_refreshed_dial_session`. It adds no key, and touches no entry but one of the snapshot's identity. */
    method Recache(key: string, snapshotId: string, refreshed: Session) returns (wrote: bool)
      modifies this
      ensures m == Recached(old(m), key, snapshotId, refreshed)
      ensures wrote <==> key in old(m) && old(m)[key].id == snapshotId
      ensures m == if wrote then old(m)[key := refreshed] else old(m)
      ensures m.Keys == old(m).Keys
      ensures forall k :: k in m && old(m)[k].id != snapshotId ==> m[k] == old(m)[k]
    {
      wrote := key in m && m[key].id == snapshotId;
      if wrote {
        m := m[key := refreshed];
      }
    }

    /** `evict_dead_dial_session`. */
    method EvictDead(key: string, snapshotId: string) returns (evicted: bool)
      modifies this
      ensures m == Purged(old(m), key, snapshotId)
      ensures evicted <==> key in old(m) && old(m)[key].id == snapshotId
      ensures m == if evicted then old(m) - {key} else old(m)
      ensures forall k :: k in old(m) && old(m)[k].id != snapshotId ==> k in m && m[k] == old(m)[k]
    {
      evicted := key in m && m[key].id == snapshotId;
      if evicted {
        m := m - {key};
      }
    }
  }
}

/**
 Any number of refreshers (snapshot, probe, guarded write or purge) interleaved with creates, dial evictions,
 service-poll removals and re-auth clears, against a controller that mints fresh ids and may delete sessions.
 */
module SessionRuns {
  import opened Sessions

  datatype Task =
    | Creating(key: string, session: Session)
    | Holding(key: string, session: Session)
    | Alive(key: string, snapshotId: string, refreshed: Session)
    | Condemned(key: string, snapshotId: string)

  /** `minted` is the controller's record of what it handed out; `deleted` what it has since deleted. */
  datatype State = State(m: Cache, tasks: map<nat, Task>, minted: map<string, Session>, deleted: set<string>)

  datatype Step =
    | Mint(t: nat, key: string, session: Session)
    | Insert(t: nat)
    | TickSnapshot(t: nat, key: string)
    | DialSnapshot(t: nat, key: string)
    | TickAnswer(t: nat, api: ApiKind, reply: ProbeReply)
    | DialAnswer(t: nat, reply: ProbeReply)
    | GuardedWrite(t: nat)
    | GuardedPurge(t: nat)
    | Abandon(t: nat)
    | DialEvict(key: string)
    | PollRemove(keys: set<string>)
    | Clear
    | Delete(id: string)

  /**
   The controller mints a fresh id for each new session, and its legacy detail endpoint answers 404 only for a session
   it has deleted.
   */
  predicate Possible(s: State, step: Step) {
    match step
    case Mint(t, _, session) => t !in s.tasks && session.id !in s.minted
    case Insert(t) => Creates(s, t)
    case TickSnapshot(t, key) => t !in s.tasks && key in s.m
    case DialSnapshot(t, key) => t !in s.tasks && key in s.m
    case TickAnswer(t, api, reply) =>
      && t in s.tasks && s.tasks[t].Holding?
      && (api.Legacy? && reply == Refuses(SessionHttp(404)) ==> s.tasks[t].session.id in s.deleted)
    case DialAnswer(t, _) => t in s.tasks && s.tasks[t].Holding?
    case GuardedWrite(t) => t in s.tasks && s.tasks[t].Alive?
    case GuardedPurge(t) => t in s.tasks && s.tasks[t].Condemned?
    case Abandon(t) => t in s.tasks
    case Delete(id) => id in s.minted
    case _ => true
  }

  /** A detail body carries the id it was asked for. The tick does not depend on it; the dial path does. */
  predicate Echoes(s: State, step: Step)
    requires Possible(s, step)
  {
    step.DialAnswer? && step.reply.Detail? ==> step.reply.body.id == s.tasks[step.t].session.id
  }

  predicate Enabled(s: State, step: Step) {
    Possible(s, step) && Echoes(s, step)
  }

  predicate Creates(s: State, t: nat) {
    t in s.tasks && s.tasks[t].Creating?
  }

  function Apply(s: State, step: Step): (s': State)
    requires Possible(s, step)
  {
    match step
    case Mint(t, key, session) =>
      s.(tasks := s.tasks[t := Creating(key, session)], minted := s.minted[session.id := session])
    case Insert(t) =>
      var c := s.tasks[t];
      s.(m := s.m[c.key := c.session], tasks := s.tasks[t := Holding(c.session.serviceId, c.session)])
    case TickSnapshot(t, key) => s.(tasks := s.tasks[t := Holding(key, s.m[key])])
    case DialSnapshot(t, key) => s.(tasks := s.tasks[t := Holding(s.m[key].serviceId, s.m[key])])
    case TickAnswer(t, api, reply) =>
      var h := s.tasks[t];
      (match TickProbe(api, h.session, reply)
       case Ok(next) => s.(tasks := s.tasks[t := Alive(h.key, h.session.id, next)])
       case Err(e) =>
         if IsProvenDead(api, e) then s.(tasks := s.tasks[t := Condemned(h.key, h.session.id)])
         else s.(tasks := s.tasks - {t}))
    case DialAnswer(t, reply) =>
      var h := s.tasks[t];
      (match DialProbe(h.session, reply)
       case Ok(next) => s.(tasks := s.tasks[t := Alive(h.key, h.session.id, next)])
       case Err(_) => s.(tasks := s.tasks - {t}))
    case GuardedWrite(t) =>
      var a := s.tasks[t];
      s.(m := Recached(s.m, a.key, a.snapshotId, a.refreshed), tasks := s.tasks - {t})
    case GuardedPurge(t) =>
      var c := s.tasks[t];
      s.(m := Purged(s.m, c.key, c.snapshotId), tasks := s.tasks - {t})
    case Abandon(t) => s.(tasks := s.tasks - {t})
    case DialEvict(key) => s.(m := s.m - {key})
    case PollRemove(keys) => s.(m := s.m - keys)
    case Clear => s.(m := map[])
    case Delete(id) => s.(deleted := s.deleted + {id})
  }

  const START := State(map[], map[], map[], {})

  ghost predicate IsRun(run: seq<State>, steps: seq<Step>) {
    && |run| == |steps| + 1 && run[0] == START
    && forall i :: 0 <= i < |steps| ==> Enabled(run[i], steps[i]) && run[i + 1] == Apply(run[i], steps[i])
  }

  /** A run in which the controller need not echo. */
  ghost predicate IsLooseRun(run: seq<State>, steps: seq<Step>) {
    && |run| == |steps| + 1 && run[0] == START
    && forall i :: 0 <= i < |steps| ==> Possible(run[i], steps[i]) && run[i + 1] == Apply(run[i], steps[i])
  }

  /** A session the controller minted; if it came with a JWT, only its routers may have changed since. */
  predicate Faithful(s: State, x: Session) {
    && x.id in s.minted
    && (IsJwt(s.minted[x.id]) ==> x == s.minted[x.id].(routers := x.routers))
  }

  predicate Sound(s: State, task: Task) {
    match task
    case Creating(_, x) => Faithful(s, x) && x.id !in Ids(s.m)
    case Holding(_, x) => Faithful(s, x)
    case Alive(_, id, x) => Faithful(s, x) && x.id == id
    case Condemned(_, id) => id in s.deleted
  }

  ghost predicate Inv(s: State) {
    && (forall k :: k in s.m ==> Faithful(s, s.m[k]))
    && (forall t :: t in s.tasks ==> Sound(s, s.tasks[t]))
    && (forall t, u :: Creates(s, t) && Creates(s, u) && t != u ==> s.tasks[t].session.id != s.tasks[u].session.id)
  }

  /** Only the insert of a created session can bring in an id or a key. */
  lemma OnlyInsertAdds(s: State, step: Step)
    requires Inv(s) && Enabled(s, step)
    ensures !step.Insert? ==> Apply(s, step).m.Keys <= s.m.Keys && Ids(Apply(s, step).m) <= Ids(s.m)
    ensures step.Insert? ==>
              && Apply(s, step).m.Keys <= s.m.Keys + {s.tasks[step.t].key}
              && Ids(Apply(s, step).m) <= Ids(s.m) + {s.tasks[step.t].session.id}
  {
    var m, m' := s.m, Apply(s, step).m;
    forall id | id in Ids(m')
      ensures id in Ids(m) || (step.Insert? && id == s.tasks[step.t].session.id)
    {
      var k :| k in m' && m'[k].id == id;
      if step.GuardedWrite? {
        assert Sound(s, s.tasks[step.t]);
        assert k in m && m[k].id == id;
      } else if !step.Insert? {
        assert k in m && m[k] == m'[k];
      }
    }
  }

  lemma InvStep(s: State, step: Step)
    requires Inv(s) && Enabled(s, step)
    ensures Inv(Apply(s, step))
  {
    var s' := Apply(s, step);
    OnlyInsertAdds(s, step);
    forall k | k in s'.m
      ensures Faithful(s', s'.m[k])
    {
      CachedFaithful(s, step, k);
    }
    forall t | t in s'.tasks
      ensures Sound(s', s'.tasks[t])
    {
      TaskSound(s, step, t);
    }
  }

  lemma CachedFaithful(s: State, step: Step, k: string)
    requires Inv(s) && Enabled(s, step) && k in Apply(s, step).m
    ensures Faithful(Apply(s, step), Apply(s, step).m[k])
  {
    var s' := Apply(s, step);
    if step.GuardedWrite? || step.Insert? {
      assert Sound(s, s.tasks[step.t]);
    }
    if k in s.m {
      assert Faithful(s, s.m[k]);
    }
  }

  lemma TaskSound(s: State, step: Step, t: nat)
    requires Inv(s) && Enabled(s, step) && t in Apply(s, step).tasks
    ensures Sound(Apply(s, step), Apply(s, step).tasks[t])
  {
    if t in s.tasks && Apply(s, step).tasks[t] == s.tasks[t] {
      KeptTaskSound(s, step, t);
    } else {
      NewTaskSound(s, step, t);
    }
  }

  lemma KeptTaskSound(s: State, step: Step, t: nat)
    requires Inv(s) && Enabled(s, step)
    requires t in s.tasks && t in Apply(s, step).tasks && Apply(s, step).tasks[t] == s.tasks[t]
    ensures Sound(Apply(s, step), s.tasks[t])
  {
    assert Sound(s, s.tasks[t]);
    OnlyInsertAdds(s, step);
    if step.Insert? {
      assert Creates(s, step.t);
      assert Creates(s, t) ==> Creates(Apply(s, step), t) && t != step.t;
    }
  }

  lemma NewTaskSound(s: State, step: Step, t: nat)
    requires Inv(s) && Enabled(s, step) && t in Apply(s, step).tasks
    requires !(t in s.tasks && Apply(s, step).tasks[t] == s.tasks[t])
    ensures Sound(Apply(s, step), Apply(s, step).tasks[t])
  {
    match step
    case Mint(_, _, session) => UncachedIfUnminted(s, session.id);
    case Insert(_) => assert Sound(s, s.tasks[t]);
    case TickSnapshot(_, key) => assert Faithful(s, s.m[key]);
    case DialSnapshot(_, key) => assert Faithful(s, s.m[key]);
    case TickAnswer(_, _, _) => assert Sound(s, s.tasks[t]);
    case DialAnswer(_, _) => assert Sound(s, s.tasks[t]);
    case _ =>
  }

  lemma UncachedIfUnminted(s: State, id: string)
    requires Inv(s) && id !in s.minted
    ensures id !in Ids(s.m)
  {
    forall k | k in s.m
      ensures s.m[k].id != id
    {
      assert Faithful(s, s.m[k]);
    }
  }

  lemma {:induction false} InvHolds(run: seq<State>, steps: seq<Step>, i: nat)
    requires IsRun(run, steps) && i < |run|
    ensures Inv(run[i])
  {
    if i == 0 {
    } else {
      InvHolds(run, steps, i - 1);
      InvStep(run[i - 1], steps[i - 1]);
    }
  }

  /** Minted, and no creator still has it in hand. */
  ghost predicate PastCreation(s: State, id: string) {
    id in s.minted && forall t :: Creates(s, t) ==> s.tasks[t].session.id != id
  }

  lemma CachedIsPastCreation(s: State, id: string)
    requires Inv(s) && id in Ids(s.m)
    ensures PastCreation(s, id)
  {
    var k :| k in s.m && s.m[k].id == id;
    assert Faithful(s, s.m[k]);
    forall t | Creates(s, t)
      ensures s.tasks[t].session.id != id
    {
      assert Sound(s, s.tasks[t]);
    }
  }

  lemma PastCreationStep(s: State, step: Step, id: string)
    requires Inv(s) && Enabled(s, step) && PastCreation(s, id)
    ensures PastCreation(Apply(s, step), id)
    ensures id !in Ids(s.m) ==> id !in Ids(Apply(s, step).m)
  {
    OnlyInsertAdds(s, step);
    if step.Insert? {
      assert Creates(s, step.t);
    }
    forall t | Creates(Apply(s, step), t)
      ensures Apply(s, step).tasks[t].session.id != id
    {
      if !step.Mint? || step.t != t {
        assert Creates(s, t);
      }
    }
  }

  lemma {:induction false} PastCreationForever(run: seq<State>, steps: seq<Step>, i: nat, j: nat, id: string)
    requires IsRun(run, steps) && i <= j < |run| && PastCreation(run[i], id)
    ensures PastCreation(run[j], id)
    ensures id !in Ids(run[i].m) ==> id !in Ids(run[j].m)
  {
    if i == j {
    } else {
      PastCreationForever(run, steps, i, j - 1, id);
      InvHolds(run, steps, j - 1);
      PastCreationStep(run[j - 1], steps[j - 1], id);
    }
  }

  /** The evicted corpse never returns: in every interleaving, an id that has left the cache stays out. */
  lemma NeverReturns(run: seq<State>, steps: seq<Step>, i: nat, j: nat, k: nat, id: string)
    requires IsRun(run, steps) && i <= j <= k < |run|
    requires id in Ids(run[i].m) && id !in Ids(run[j].m)
    ensures id !in Ids(run[k].m)
  {
    InvHolds(run, steps, i);
    CachedIsPastCreation(run[i], id);
    PastCreationForever(run, steps, i, j, id);
    PastCreationForever(run, steps, j, k, id);
  }

  /** A miss can become a hit only through a create: no refresh, purge or eviction ever adds a key. */
  lemma OnlyCreatesAddKeys(run: seq<State>, steps: seq<Step>, i: nat, key: string)
    requires IsRun(run, steps) && i < |steps|
    requires key !in run[i].m && key in run[i + 1].m
    ensures steps[i].Insert? && run[i].tasks[steps[i].t].key == key
  {
    InvHolds(run, steps, i);
    OnlyInsertAdds(run[i], steps[i]);
  }

  /** A guarded write never disturbs an entry that has been replaced since the snapshot. */
  lemma WritesSpareNewerSessions(run: seq<State>, steps: seq<Step>, i: nat, key: string)
    requires IsRun(run, steps) && i < |steps| && steps[i].GuardedWrite? && key in run[i].m
    ensures key in run[i + 1].m && run[i + 1].m[key].id == run[i].m[key].id
    ensures run[i].m[key].id != run[i].tasks[steps[i].t].snapshotId ==> run[i + 1].m[key] == run[i].m[key]
  {
    InvHolds(run, steps, i);
    assert Sound(run[i], run[i].tasks[steps[i].t]);
  }

  /** Whatever the interleaving, what a tick purges is a session the controller has deleted. */
  lemma PurgesOnlyTheDead(run: seq<State>, steps: seq<Step>, i: nat, key: string)
    requires IsRun(run, steps) && i < |steps| && steps[i].GuardedPurge?
    requires key in run[i].m && key !in run[i + 1].m
    ensures run[i].m[key].id in run[i].deleted
  {
    InvHolds(run, steps, i);
    assert Sound(run[i], run[i].tasks[steps[i].t]);
  }

  /** Under an OIDC api-session no tick ever gets as far as a purge. */
  lemma {:induction false} OidcNeverPurges(run: seq<State>, steps: seq<Step>, i: nat)
    requires IsRun(run, steps) && i < |run|
    requires forall j :: 0 <= j < |steps| && steps[j].TickAnswer? ==> steps[j].api.Oidc?
    ensures forall t :: t in run[i].tasks ==> !run[i].tasks[t].Condemned?
    ensures i < |steps| ==> !steps[i].GuardedPurge?
  {
    if i == 0 {
    } else {
      OidcNeverPurges(run, steps, i - 1);
      assert Enabled(run[i - 1], steps[i - 1]);
    }
    if i < |steps| {
      assert Enabled(run[i], steps[i]);
    }
  }

  /** A JWT session keeps its token, id, service, type and owner for as long as it is cached. */
  lemma JwtSessionsKeepIdentity(run: seq<State>, steps: seq<Step>, i: nat, key: string)
    requires IsRun(run, steps) && i < |run| && key in run[i].m
    ensures run[i].m[key].id in run[i].minted
    ensures var born := run[i].minted[run[i].m[key].id];
            IsJwt(born) ==> run[i].m[key] == born.(routers := run[i].m[key].routers)
  {
    InvHolds(run, steps, i);
    assert Faithful(run[i], run[i].m[key]);
  }

  // ----- what the steps bring about -------------------------------------------------------------------

  /** The step is one of this task's. */
  predicate Of(step: Step, t: nat) {
    match step
    case Mint(u, _, _) => u == t
    case Insert(u) => u == t
    case TickSnapshot(u, _) => u == t
    case DialSnapshot(u, _) => u == t
    case TickAnswer(u, _, _) => u == t
    case DialAnswer(u, _) => u == t
    case GuardedWrite(u) => u == t
    case GuardedPurge(u) => u == t
    case Abandon(u) => u == t
    case _ => false
  }

  lemma {:induction false} TaskWaits(run: seq<State>, steps: seq<Step>, i: nat, j: nat, t: nat)
    requires IsLooseRun(run, steps) && i <= j < |run| && t in run[i].tasks
    requires forall k :: i <= k < j ==> !Of(steps[k], t)
    ensures t in run[j].tasks && run[j].tasks[t] == run[i].tasks[t]
  {
    if i == j {
    } else {
      TaskWaits(run, steps, i, j - 1, t);
      assert Possible(run[j - 1], steps[j - 1]) && run[j] == Apply(run[j - 1], steps[j - 1]);
    }
  }

  /** In every run, the write that follows an answer leaves what was answered, if the session is still in place. */
  lemma WriteBringsAnswer(run: seq<State>, steps: seq<Step>, i: nat, j: nat, t: nat)
    requires IsLooseRun(run, steps) && i < j < |steps| && steps[j] == GuardedWrite(t)
    requires forall k :: i < k < j ==> !Of(steps[k], t)
    requires t in run[i].tasks && run[i].tasks[t].Holding?
    ensures var key, s := run[i].tasks[t].key, run[i].tasks[t].session;
            key in run[j].m && run[j].m[key].id == s.id ==>
              match steps[i]
              case TickAnswer(u, Oidc, Routers(rs)) => u == t ==> run[j + 1].m == run[j].m[key := s.(routers := rs)]
              case TickAnswer(u, Legacy, Detail(body)) =>
                u == t ==> run[j + 1].m == run[j].m[key := s.(routers := body.routers)]
              case DialAnswer(u, Routers(rs)) =>
                u == t && IsJwt(s) ==> run[j + 1].m == run[j].m[key := s.(routers := rs)]
              case DialAnswer(u, Detail(body)) => u == t && !IsJwt(s) ==> run[j + 1].m == run[j].m[key := body]
              case _ => true
  {
    hide IsJwt;
    assert Possible(run[i], steps[i]) && run[i + 1] == Apply(run[i], steps[i]);
    assert Possible(run[j], steps[j]) && run[j + 1] == Apply(run[j], steps[j]);
    if t in run[i + 1].tasks {
      TaskWaits(run, steps, i + 1, j, t);
    }
  }

  /** In every run, a session the controller has answered 404 for is gone after the purge, if it is still in place. */
  lemma CondemnedIsPurged(run: seq<State>, steps: seq<Step>, i: nat, j: nat, t: nat)
    requires IsLooseRun(run, steps) && i < j < |steps|
    requires steps[i] == TickAnswer(t, Legacy, Refuses(SessionHttp(404))) && steps[j] == GuardedPurge(t)
    requires forall k :: i < k < j ==> !Of(steps[k], t)
    requires t in run[i].tasks && run[i].tasks[t].Holding?
    ensures var key, s := run[i].tasks[t].key, run[i].tasks[t].session;
            key in run[j].m && run[j].m[key].id == s.id ==> run[j + 1].m == run[j].m - {key}
  {
    assert Possible(run[i], steps[i]) && run[i + 1] == Apply(run[i], steps[i]);
    assert Possible(run[j], steps[j]) && run[j + 1] == Apply(run[j], steps[j]);
    TaskWaits(run, steps, i + 1, j, t);
  }

  /** Evictions evict, a poll takes out its keys, a clear everything, an insert puts its session in. */
  lemma StepsAct(s: State, step: Step)
    requires Possible(s, step)
    ensures step.DialEvict? ==> Apply(s, step).m == s.m - {step.key}
    ensures step.PollRemove? ==> Apply(s, step).m == s.m - step.keys
    ensures step.Clear? ==> Apply(s, step).m == map[]
    ensures step.Insert? ==>
              Apply(s, step).m == s.m[s.tasks[step.t].key := s.tasks[step.t].session]
    ensures step.TickSnapshot? ==> Apply(s, step).tasks[step.t] == Holding(step.key, s.m[step.key])
    ensures step.DialSnapshot? ==> Apply(s, step).tasks[step.t] == Holding(s.m[step.key].serviceId, s.m[step.key])
  {
  }

  // ----- without the echo -----------------------------------------------------------------------------

  /** A write that lands, and brings an id other than the one it was gated on. */
  predicate Imports(s: State, step: Step, id: string) {
    && step.GuardedWrite? && step.t in s.tasks && s.tasks[step.t].Alive?
    && var a := s.tasks[step.t];
       StillThere(s.m, a.key, a.snapshotId) && a.refreshed.id == id && a.snapshotId != id
  }

  ghost predicate CreatorsInv(s: State) {
    && (forall t :: Creates(s, t) ==> s.tasks[t].session.id in s.minted)
    && (forall t, u :: Creates(s, t) && Creates(s, u) && t != u ==> s.tasks[t].session.id != s.tasks[u].session.id)
  }

  lemma CreatedBefore(s: State, step: Step, t: nat)
    requires Possible(s, step) && Creates(Apply(s, step), t)
    ensures (step.Mint? && step.t == t && Apply(s, step).tasks[t].session == step.session) ||
            (Creates(s, t) && Apply(s, step).tasks[t] == s.tasks[t])
  {
  }

  lemma CreatorsStep(s: State, step: Step)
    requires CreatorsInv(s) && Possible(s, step)
    ensures CreatorsInv(Apply(s, step))
  {
    var s' := Apply(s, step);
    assert forall id :: id in s.minted ==> id in s'.minted;
    forall t | Creates(s', t)
      ensures s'.tasks[t].session.id in s'.minted
    {
      CreatedBefore(s, step, t);
    }
    forall t, u | Creates(s', t) && Creates(s', u) && t != u
      ensures s'.tasks[t].session.id != s'.tasks[u].session.id
    {
      CreatedBefore(s, step, t);
      CreatedBefore(s, step, u);
    }
  }

  lemma {:induction false} CreatorsHold(run: seq<State>, steps: seq<Step>, i: nat)
    requires IsLooseRun(run, steps) && i < |run|
    ensures CreatorsInv(run[i])
  {
    if i == 0 {
    } else {
      CreatorsHold(run, steps, i - 1);
      CreatorsStep(run[i - 1], steps[i - 1]);
    }
  }

  /** Inserting is the last a creator has to do with an id. */
  lemma InsertEndsCreation(s: State, t: nat)
    requires CreatorsInv(s) && Creates(s, t)
    ensures PastCreation(Apply(s, Insert(t)), s.tasks[t].session.id)
  {
    var s' := Apply(s, Insert(t));
    forall u | Creates(s', u)
      ensures s'.tasks[u].session.id != s.tasks[t].session.id
    {
      CreatedBefore(s, Insert(t), u);
      assert Creates(s, u) && u != t;
    }
  }

  lemma LoosePastStep(s: State, step: Step, id: string)
    requires Possible(s, step) && PastCreation(s, id)
    ensures PastCreation(Apply(s, step), id)
  {
    forall t | Creates(Apply(s, step), t)
      ensures Apply(s, step).tasks[t].session.id != id
    {
      CreatedBefore(s, step, t);
    }
  }

  lemma {:induction false} LoosePast(run: seq<State>, steps: seq<Step>, i: nat, j: nat, id: string)
    requires IsLooseRun(run, steps) && i <= j < |run| && PastCreation(run[i], id)
    ensures PastCreation(run[j], id)
  {
    if i == j {
    } else {
      LoosePast(run, steps, i, j - 1, id);
      LoosePastStep(run[j - 1], steps[j - 1], id);
    }
  }

  /** Whatever the step, an id past its creation enters the cache exactly by being imported. */
  lemma EntersIff(s: State, step: Step, id: string)
    requires Possible(s, step) && PastCreation(s, id) && id !in Ids(s.m)
    ensures id in Ids(Apply(s, step).m) <==> Imports(s, step, id)
  {
    var m, m' := s.m, Apply(s, step).m;
    if step.Insert? {
      assert Creates(s, step.t);
    }
    if id in Ids(m') {
      var k :| k in m' && m'[k].id == id;
      assert k in m ==> m[k].id != id;
    }
    if Imports(s, step, id) {
      assert m'[s.tasks[step.t].key].id == id;
    }
  }

  lemma {:induction false} StaysOut(run: seq<State>, steps: seq<Step>, j: nat, n: nat, id: string)
    requires IsLooseRun(run, steps) && j <= n < |run| && PastCreation(run[j], id) && id !in Ids(run[j].m)
    requires forall l :: j <= l < n ==> !Imports(run[l], steps[l], id)
    ensures id !in Ids(run[n].m)
  {
    if j == n {
    } else {
      StaysOut(run, steps, j, n - 1, id);
      LoosePast(run, steps, j, n - 1, id);
      EntersIff(run[n - 1], steps[n - 1], id);
    }
  }

  /**
   Exactly how an id that left can return when the controller does not echo: after the insert of its creation at `h`,
   once it is out at `j`, it is seen again by `n` if and only if some write between imports it.
   */
  lemma ReturnsIff(run: seq<State>, steps: seq<Step>, h: nat, j: nat, n: nat, id: string)
    requires IsLooseRun(run, steps) && h < j <= n < |run|
    requires steps[h].Insert? && Creates(run[h], steps[h].t) && run[h].tasks[steps[h].t].session.id == id
    requires id !in Ids(run[j].m)
    ensures (exists k :: j < k <= n && id in Ids(run[k].m)) <==>
            (exists l :: j <= l < n && Imports(run[l], steps[l], id))
  {
    CreatorsHold(run, steps, h);
    InsertEndsCreation(run[h], steps[h].t);
    LoosePast(run, steps, h + 1, j, id);
    if exists k :: j < k <= n && id in Ids(run[k].m) {
      var k :| j < k <= n && id in Ids(run[k].m);
      ImportedBy(run, steps, j, k, id);
    }
    if exists l :: j <= l < n && Imports(run[l], steps[l], id) {
      var l :| j <= l < n && Imports(run[l], steps[l], id);
      assert run[l + 1].m[run[l].tasks[steps[l].t].key].id == id;
      var k := l + 1;
      assert id in Ids(run[k].m);
    }
  }

  lemma ImportedBy(run: seq<State>, steps: seq<Step>, j: nat, k: nat, id: string)
    requires IsLooseRun(run, steps) && j < k < |run| && PastCreation(run[j], id) && id !in Ids(run[j].m)
    requires id in Ids(run[k].m)
    ensures exists l :: j <= l < k && Imports(run[l], steps[l], id)
  {
    if forall l :: j <= l < k ==> !Imports(run[l], steps[l], id) {
      StaysOut(run, steps, j, k, id);
    }
  }

  /** And every import goes back to a detail body for an opaque session, carrying an id it was not asked for. */
  lemma {:induction false} ImportsAreOpaque(run: seq<State>, steps: seq<Step>, l: nat, t: nat) returns (q: nat)
    requires IsLooseRun(run, steps) && l < |run| && t in run[l].tasks && run[l].tasks[t].Alive?
    requires run[l].tasks[t].refreshed.id != run[l].tasks[t].snapshotId
    ensures q < l && t in run[q].tasks && run[q].tasks[t].Holding? && !IsJwt(run[q].tasks[t].session)
    ensures steps[q] == DialAnswer(t, Detail(run[l].tasks[t].refreshed))
    ensures run[q].tasks[t].session.id == run[l].tasks[t].snapshotId
  {
    assert l > 0;
    assert Possible(run[l - 1], steps[l - 1]) && run[l] == Apply(run[l - 1], steps[l - 1]);
    if t in run[l - 1].tasks && run[l - 1].tasks[t] == run[l].tasks[t] {
      q := ImportsAreOpaque(run, steps, l - 1, t);
    } else {
      q := l - 1;
      hide IsLooseRun;
      ForeignStep(run[l - 1], steps[l - 1], t);
    }
  }

  lemma ForeignStep(s: State, step: Step, t: nat)
    requires Possible(s, step) && t in Apply(s, step).tasks && Apply(s, step).tasks[t].Alive?
    requires Apply(s, step).tasks[t].refreshed.id != Apply(s, step).tasks[t].snapshotId
    requires !(t in s.tasks && s.tasks[t] == Apply(s, step).tasks[t])
    ensures t in s.tasks && s.tasks[t].Holding? && !IsJwt(s.tasks[t].session)
    ensures step == DialAnswer(t, Detail(Apply(s, step).tasks[t].refreshed))
    ensures s.tasks[t].session.id == Apply(s, step).tasks[t].snapshotId
  {
  }

  lemma RunSnoc(run: seq<State>, steps: seq<Step>, s: State, step: Step)
    requires run != [] && IsLooseRun(run, steps) && run[|run| - 1] == s && Possible(s, step)
    ensures IsLooseRun(run + [Apply(s, step)], steps + [step])
  {
  }

  function Opaque(id: string, key: string): Session {
    Session(id, "opaque", key, Dial, "", "", [])
  }

  /** Minted, inserted and evicted again. */
  lemma Evicted(key: string) returns (run: seq<State>, steps: seq<Step>)
    ensures IsLooseRun(run, steps) && |run| == 4
    ensures run[2].m == map[key := Opaque("a", key)] && run[3].m == map[]
    ensures run[3].tasks.Keys == {0} && run[3].minted.Keys == {"a"}
  {
    var a := Opaque("a", key);
    var s1 := Apply(START, Mint(0, key, a));
    var s2 := Apply(s1, Insert(0));
    var s3 := Apply(s2, DialEvict(key));
    assert IsLooseRun([START], []);
    RunSnoc([START], [], START, Mint(0, key, a));
    RunSnoc([START] + [s1], [] + [Mint(0, key, a)], s1, Insert(0));
    RunSnoc([START] + [s1] + [s2], [] + [Mint(0, key, a)] + [Insert(0)], s2, DialEvict(key));
    hide IsLooseRun;
    run, steps := [START] + [s1] + [s2] + [s3], [] + [Mint(0, key, a)] + [Insert(0)] + [DialEvict(key)];
    assert s2.m == map[key := a] && s3.m == map[];
  }

  /** A second session takes the key; the answer to its refresh carries the first one's id, and is written. */
  lemma ForeignAnswer(s: State, key: string) returns (states: seq<State>, steps: seq<Step>)
    requires s.m == map[] && 1 !in s.tasks && "b" !in s.minted
    ensures |states| == 4 && |steps| == 4
    ensures Possible(s, steps[0]) && states[0] == Apply(s, steps[0])
    ensures Possible(states[0], steps[1]) && states[1] == Apply(states[0], steps[1])
    ensures Possible(states[1], steps[2]) && states[2] == Apply(states[1], steps[2])
    ensures Possible(states[2], steps[3]) && states[3] == Apply(states[2], steps[3])
    ensures states[3].m == map[key := Opaque("a", key)]
  {
    var a, b := Opaque("a", key), Opaque("b", key);
    assert !IsJwt(b) by {
      assert b.token[0] == 'o';
    }
    steps := [Mint(1, key, b), Insert(1), DialAnswer(1, Detail(a)), GuardedWrite(1)];
    var s1 := Apply(s, steps[0]);
    var s2 := Apply(s1, steps[1]);
    assert s2.m == map[key := b] && s2.tasks[1] == Holding(key, b);
    var s3 := Apply(s2, steps[2]);
    assert s3.m == s2.m && s3.tasks[1] == Alive(key, "b", a);
    states := [s1, s2, s3, Apply(s3, steps[3])];
  }

  /** Without the echo the evicted session does come back: here the answer about "b" carries "a". */
  lemma ForeignBodyResurrects(key: string) returns (run: seq<State>, steps: seq<Step>)
    ensures IsLooseRun(run, steps) && |run| == 8
    ensures "a" in Ids(run[2].m) && "a" !in Ids(run[3].m) && "a" in Ids(run[7].m)
  {
    var front, begun := Evicted(key);
    var s := front[3];
    var states, more := ForeignAnswer(s, key);
    assert |begun| == 3;
    hide IsLooseRun, Possible, Apply;
    RunSnoc(front, begun, s, more[0]);
    RunSnoc(front + [states[0]], begun + [more[0]], states[0], more[1]);
    RunSnoc(front + [states[0]] + [states[1]], begun + [more[0]] + [more[1]], states[1], more[2]);
    RunSnoc(front + [states[0]] + [states[1]] + [states[2]], begun + [more[0]] + [more[1]] + [more[2]],
            states[2], more[3]);
    run := front + [states[0]] + [states[1]] + [states[2]] + [states[3]];
    steps := begun + [more[0]] + [more[1]] + [more[2]] + [more[3]];
    assert run[2].m[key].id == "a" && run[7].m[key].id == "a" && run[3].m == map[];
  }
}
