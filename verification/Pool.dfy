/** The pool of router channels, its registry of live channels, and the race of the openers. */
module ChannelPool {
  import opened Base

  type Channel = nat

  predicate AliveAt(pool: map<string, Channel>, addr: string, alive: set<Channel>) {
    addr in pool && pool[addr] in alive
  }

  /** The registry without the channels nobody holds any more. */
  function Pruned(live: seq<Channel>, held: set<Channel>): seq<Channel> {
    if live == [] then []
    else Pruned(live[..|live| - 1], held) + (if live[|live| - 1] in held then [live[|live| - 1]] else [])
  }

  /** The addresses of a scan whose pooled channel is dead. */
  function DeadAmong(pool: map<string, Channel>, addrs: seq<string>, alive: set<Channel>): set<string> {
    set i | 0 <= i < |addrs| && addrs[i] in pool && pool[addrs[i]] !in alive :: addrs[i]
  }

  function UnconnectedAmong(pool: map<string, Channel>, addrs: seq<string>, alive: set<Channel>): seq<string> {
    if addrs == [] then []
    else UnconnectedAmong(pool, addrs[..|addrs| - 1], alive)
         + (if AliveAt(pool, addrs[|addrs| - 1], alive) then [] else [addrs[|addrs| - 1]])
  }

  /** The `i`-th address is a candidate: its pooled channel is alive. */
  predicate Candidate(pool: map<string, Channel>, addrs: seq<string>, alive: set<Channel>, i: int) {
    0 <= i < |addrs| && AliveAt(pool, addrs[i], alive)
  }

  /** The first of the candidates with the lowest mean. */
  ghost predicate Best(pool: map<string, Channel>, addrs: seq<string>, alive: set<Channel>, mean: Channel -> nat,
                       i: int) {
    && Candidate(pool, addrs, alive, i)
    && (forall j :: Candidate(pool, addrs, alive, j) ==> mean(pool[addrs[i]]) <= mean(pool[addrs[j]]))
    && (forall j :: Candidate(pool, addrs, alive, j) && j < i ==> mean(pool[addrs[i]]) < mean(pool[addrs[j]]))
  }

  class Pool {
    var pool: map<string, Channel>
    var live: seq<Channel>

    constructor ()
      ensures pool == map[] && live == []
    {
      pool, live := map[], [];
    }

    /** `pool_get_alive_one`: hands out the alive channel, or clears the way for a new one. */
    method GetAliveOne(addr: string, alive: set<Channel>) returns (r: Option<Channel>)
      modifies this`pool
      ensures r.Some? <==> addr in old(pool) && old(pool)[addr] in alive
      ensures r.Some? ==> r.value == old(pool)[addr]
      ensures pool == if r.Some? then old(pool) else old(pool) - {addr}
    {
      if addr in pool {
        if pool[addr] in alive {
          return Some(pool[addr]);
        }
        pool := pool - {addr};
      }
      return None;
    }

    /** `register_live_channel_into`. */
    method Register(channel: Channel, held: set<Channel>)
      modifies this`live
      ensures live == Pruned(old(live), held) + [channel]
    {
      var kept: seq<Channel> := [];
      var i := 0;
      while i < |live|
        invariant 0 <= i <= |live| && live == old(live) && kept == Pruned(live[..i], held)
      {
        assert live[..i + 1][..i] == live[..i];
        if live[i] in held {
          kept := kept + [live[i]];
        }
        i := i + 1;
      }
      assert live[..|live|] == live;
      live := kept + [channel];
    }

    /** `pool_store_or_reuse_into`: first writer wins; only the channel that goes into the pool is registered. */
    method StoreOrReuse(addr: string, channel: Channel, alive: set<Channel>, held: set<Channel>) returns (r: Channel)
      modifies this
      ensures addr in old(pool) && old(pool)[addr] in alive ==>
                r == old(pool)[addr] && pool == old(pool) && live == old(live)
      ensures !(addr in old(pool) && old(pool)[addr] in alive) ==>
                r == channel && pool == old(pool)[addr := channel] && live == Pruned(old(live), held) + [channel]
    {
      if addr in pool && pool[addr] in alive {
        return pool[addr];
      }
      pool := pool[addr := channel];
      Register(channel, held);
      return channel;
    }

    /** `pool_get_alive`: the first lowest-mean alive channel whenever there is one; every dead entry met is dropped. */
    method GetAlive(addrs: seq<string>, alive: set<Channel>, mean: Channel -> nat) returns (r: Option<Channel>)
      modifies this`pool
      ensures pool == old(pool) - DeadAmong(old(pool), addrs, alive)
      ensures forall a :: a in pool <==> a in old(pool) && (a in addrs ==> old(pool)[a] in alive)
      ensures r.Some? <==> exists i :: Candidate(old(pool), addrs, alive, i)
      ensures r.Some? ==> exists i :: Best(old(pool), addrs, alive, mean, i) && r.value == old(pool)[addrs[i]]
    {
      var candidates: seq<(nat, Channel)> := [];
      ghost var at: seq<int> := [];
      var dead: set<string> := {};
      var i := 0;
      while i < |addrs|
        invariant 0 <= i <= |addrs| && pool == old(pool)
        invariant Collected(pool, addrs, alive, mean, candidates, at, i)
        invariant dead == DeadAmong(pool, addrs[..i], alive)
      {
        DeadSnoc(pool, addrs, alive, i);
        CollectedSnoc(pool, addrs, alive, mean, candidates, at, i);
        if addrs[i] in pool {
          var channel := pool[addrs[i]];
          if channel in alive {
            candidates, at := candidates + [(mean(channel), channel)], at + [i];
          } else {
            dead := dead + {addrs[i]};
          }
        }
        i := i + 1;
      }
      assert addrs[..|addrs|] == addrs;
      ghost var was := pool;
      pool := pool - dead;
      DeadMeans(was, addrs, alive);
      if candidates == [] {
        return None;
      }
      var b := FirstLowest(candidates);
      PickIsBest(was, addrs, alive, mean, candidates, at, b);
      return Some(candidates[b].1);
    }

    /** `pool_unconnected`: the addresses to (re)open, in order. */
    method Unconnected(addrs: seq<string>, alive: set<Channel>) returns (r: seq<string>)
      ensures r == UnconnectedAmong(pool, addrs, alive)
    {
      r := [];
      var i := 0;
      while i < |addrs|
        invariant 0 <= i <= |addrs| && r == UnconnectedAmong(pool, addrs[..i], alive)
      {
        assert addrs[..i + 1][..i] == addrs[..i];
        if !(addrs[i] in pool && pool[addrs[i]] in alive) {
          r := r + [addrs[i]];
        }
        i := i + 1;
      }
      assert addrs[..|addrs|] == addrs;
    }
  }

  lemma DeadMeans(pool: map<string, Channel>, addrs: seq<string>, alive: set<Channel>)
    ensures forall a :: a in DeadAmong(pool, addrs, alive) <==> a in addrs && a in pool && pool[a] !in alive
  {
    forall a | a in addrs && a in pool && pool[a] !in alive
      ensures a in DeadAmong(pool, addrs, alive)
    {
      var i :| 0 <= i < |addrs| && addrs[i] == a;
    }
  }

  /** There is a candidate whenever some address has an alive pooled channel. */
  lemma CandidateIff(pool: map<string, Channel>, addrs: seq<string>, alive: set<Channel>)
    ensures (exists i :: Candidate(pool, addrs, alive, i)) <==>
            exists a :: a in addrs && a in pool && pool[a] in alive
  {
    if a :| a in addrs && a in pool && pool[a] in alive {
      var i :| 0 <= i < |addrs| && addrs[i] == a;
      assert Candidate(pool, addrs, alive, i);
    }
  }

  /** The best is alive, no alive channel of the scan has a lower mean, and an earlier one has a higher mean. */
  lemma BestIsFirstLowest(pool: map<string, Channel>, addrs: seq<string>, alive: set<Channel>, mean: Channel -> nat,
                          i: int, j: int)
    requires Best(pool, addrs, alive, mean, i)
    ensures 0 <= i < |addrs| && addrs[i] in pool && pool[addrs[i]] in alive
    ensures 0 <= j < |addrs| && addrs[j] in pool && pool[addrs[j]] in alive ==>
              && mean(pool[addrs[i]]) <= mean(pool[addrs[j]])
              && (j < i ==> mean(pool[addrs[i]]) < mean(pool[addrs[j]]))
  {
    assert Candidate(pool, addrs, alive, i);
    assert Candidate(pool, addrs, alive, j) <==>
           0 <= j < |addrs| && addrs[j] in pool && pool[addrs[j]] in alive;
  }

  lemma DeadSnoc(pool: map<string, Channel>, addrs: seq<string>, alive: set<Channel>, i: nat)
    requires i < |addrs|
    ensures DeadAmong(pool, addrs[..i + 1], alive) ==
            DeadAmong(pool, addrs[..i], alive)
            + (if addrs[i] in pool && pool[addrs[i]] !in alive then {addrs[i]} else {})
  {
    var small, large := addrs[..i], addrs[..i + 1];
    assert forall j :: 0 <= j < i ==> small[j] == large[j];
    assert large[i] == addrs[i];
    forall a | a in DeadAmong(pool, small, alive)
      ensures a in DeadAmong(pool, large, alive)
    {
      var j :| 0 <= j < |small| && small[j] in pool && pool[small[j]] !in alive && small[j] == a;
      assert large[j] == a;
    }
  }

  /** The candidates met so far, and where: in address order, none missing. */
  ghost predicate Collected(pool: map<string, Channel>, addrs: seq<string>, alive: set<Channel>, mean: Channel -> nat,
                            candidates: seq<(nat, Channel)>, at: seq<int>, n: int) {
    && |at| == |candidates|
    && (forall k :: 0 <= k < |at| ==>
          && at[k] < n && Candidate(pool, addrs, alive, at[k])
          && candidates[k] == (mean(pool[addrs[at[k]]]), pool[addrs[at[k]]]))
    && (forall k, l :: 0 <= k < l < |at| ==> at[k] < at[l])
    && (forall j :: j < n && Candidate(pool, addrs, alive, j) ==> j in at)
  }

  lemma CollectedSnoc(pool: map<string, Channel>, addrs: seq<string>, alive: set<Channel>, mean: Channel -> nat,
                      candidates: seq<(nat, Channel)>, at: seq<int>, i: int)
    requires 0 <= i < |addrs| && Collected(pool, addrs, alive, mean, candidates, at, i)
    ensures !AliveAt(pool, addrs[i], alive) ==> Collected(pool, addrs, alive, mean, candidates, at, i + 1)
    ensures AliveAt(pool, addrs[i], alive) ==>
              var c := pool[addrs[i]];
              Collected(pool, addrs, alive, mean, candidates + [(mean(c), c)], at + [i], i + 1)
  {
  }

  /** `min_by_key`: the position of the first pair with the least key. */
  method FirstLowest(candidates: seq<(nat, Channel)>) returns (b: nat)
    requires candidates != []
    ensures b < |candidates|
    ensures forall k :: 0 <= k < |candidates| ==> candidates[b].0 <= candidates[k].0
    ensures forall k :: 0 <= k < b ==> candidates[b].0 < candidates[k].0
  {
    b := 0;
    var k := 1;
    while k < |candidates|
      invariant b < k <= |candidates|
      invariant forall l :: 0 <= l < k ==> candidates[b].0 <= candidates[l].0
      invariant forall l :: 0 <= l < b ==> candidates[b].0 < candidates[l].0
    {
      if candidates[k].0 < candidates[b].0 {
        b := k;
      }
      k := k + 1;
    }
  }

  lemma PickIsBest(pool: map<string, Channel>, addrs: seq<string>, alive: set<Channel>, mean: Channel -> nat,
                   candidates: seq<(nat, Channel)>, at: seq<int>, b: nat)
    requires Collected(pool, addrs, alive, mean, candidates, at, |addrs|) && b < |candidates|
    requires forall k :: 0 <= k < |candidates| ==> candidates[b].0 <= candidates[k].0
    requires forall k :: 0 <= k < b ==> candidates[b].0 < candidates[k].0
    ensures Best(pool, addrs, alive, mean, at[b]) && candidates[b].1 == pool[addrs[at[b]]]
  {
    forall j | Candidate(pool, addrs, alive, j)
      ensures mean(pool[addrs[at[b]]]) <= mean(pool[addrs[j]])
      ensures j < at[b] ==> mean(pool[addrs[at[b]]]) < mean(pool[addrs[j]])
    {
      assert j in at;
      var k :| 0 <= k < |at| && at[k] == j;
      assert j < at[b] ==> k < b;
    }
  }

  /** The addresses to open are exactly those without an alive pooled channel. */
  lemma {:induction false} UnconnectedAt(pool: map<string, Channel>, addrs: seq<string>, alive: set<Channel>, a: string)
    ensures a in UnconnectedAmong(pool, addrs, alive) <==> a in addrs && !(a in pool && pool[a] in alive)
  {
    if addrs == [] {
    } else {
      var front, last := addrs[..|addrs| - 1], addrs[|addrs| - 1];
      UnconnectedAt(pool, front, alive, a);
    }
  }

  /** In the order of the addresses: a longer list adds its own at the end. */
  lemma {:induction false} UnconnectedAppend(pool: map<string, Channel>, xs: seq<string>, ys: seq<string>,
                                             alive: set<Channel>)
    ensures UnconnectedAmong(pool, xs + ys, alive) ==
            UnconnectedAmong(pool, xs, alive) + UnconnectedAmong(pool, ys, alive)
  {
    if ys == [] {
      Unit(xs);
      Unit(UnconnectedAmong(pool, xs, alive));
    } else {
      var n := |ys| - 1;
      UnconnectedAppend(pool, xs, ys[..n], alive);
      assert (xs + ys)[..|xs + ys| - 1] == xs + ys[..n];
      Assoc(UnconnectedAmong(pool, xs, alive), UnconnectedAmong(pool, ys[..n], alive),
            if AliveAt(pool, ys[n], alive) then [] else [ys[n]]);
    }
  }

  /** Pruning keeps the order of what it keeps. */
  lemma {:induction false} PrunedAppend(xs: seq<Channel>, ys: seq<Channel>, held: set<Channel>)
    ensures Pruned(xs + ys, held) == Pruned(xs, held) + Pruned(ys, held)
  {
    if ys == [] {
      Unit(xs);
      Unit(Pruned(xs, held));
    } else {
      var n := |ys| - 1;
      PrunedAppend(xs, ys[..n], held);
      assert (xs + ys)[..|xs + ys| - 1] == xs + ys[..n];
      Assoc(Pruned(xs, held), Pruned(ys[..n], held), if ys[n] in held then [ys[n]] else []);
    }
  }

  datatype OpenError = NoTlsEdgeRouter | Failed(code: nat)

  /** `fan_out_first_ok`, on the openers' reports in order of arrival. */
  method FanOutFirstOk(reports: seq<Result<Channel, OpenError>>) returns (r: Result<Channel, OpenError>)
    ensures r.Ok? <==> exists i :: 0 <= i < |reports| && reports[i].Ok?
    ensures r.Ok? ==> exists i :: 0 <= i < |reports| && r == reports[i] && forall j :: 0 <= j < i ==> reports[j].Err?
    ensures r.Err? ==> r == if reports == [] then Err(NoTlsEdgeRouter) else reports[|reports| - 1]
  {
    var last := Err(NoTlsEdgeRouter);
    var i := 0;
    while i < |reports|
      invariant 0 <= i <= |reports|
      invariant forall j :: 0 <= j < i ==> reports[j].Err?
      invariant last == if i == 0 then Err(NoTlsEdgeRouter) else reports[i - 1]
    {
      if reports[i].Ok? {
        return reports[i];
      }
      last := reports[i];
      i := i + 1;
    }
    return last;
  }
}

/** Any number of openers racing each other, scans, users and channel deaths. */
module PoolRuns {
  import opened ChannelPool

  datatype Opener =
    | Looking(addr: string)
    | Dialling(addr: string)
    | Storing(addr: string, channel: Channel)
    | Registering(channel: Channel)

  /**
   `users` are the channels handed out and still in use; `born`, `inserted` and `lost` record what was ever opened,
   ever pooled and ever dropped as a duplicate; `registered` is every registration made, in order.
   */
  datatype State = State(
    pool: map<string, Channel>,
    live: seq<Channel>,
    alive: set<Channel>,
    users: set<Channel>,
    openers: map<nat, Opener>,
    born: set<Channel>,
    inserted: set<Channel>,
    lost: set<Channel>,
    registered: seq<Channel>)

  datatype Step =
    | Spawn(t: nat, addr: string)
    | Look(t: nat)
    | Connect(t: nat, channel: Channel)
    | Fail(t: nat)
    | Store(t: nat)
    | Register(t: nat)
    | Scan(addrs: seq<string>)
    | Use(addr: string)
    | Drop(channel: Channel)
    | Die(channel: Channel)

  predicate Enabled(s: State, step: Step) {
    match step
    case Spawn(t, _) => t !in s.openers
    case Look(t) => t in s.openers && s.openers[t].Looking?
    case Connect(t, channel) => t in s.openers && s.openers[t].Dialling? && channel !in s.born
    case Fail(t) => t in s.openers && s.openers[t].Dialling?
    case Store(t) => t in s.openers && s.openers[t].Storing?
    case Register(t) => t in s.openers && s.openers[t].Registering?
    case Use(addr) => AliveAt(s.pool, addr, s.alive)
    case _ => true
  }

  /** Someone holds the channel: the pool, an opener, or a user. */
  ghost predicate Held(s: State, c: Channel) {
    || c in s.pool.Values || c in s.users
    || exists t :: t in s.openers && Carries(s.openers[t], c)
  }

  predicate Carries(o: Opener, c: Channel) {
    (o.Storing? || o.Registering?) && o.channel == c
  }

  ghost function HeldSet(s: State): set<Channel> {
    set c | c in s.born && Held(s, c)
  }

  ghost function Apply(s: State, step: Step): State
    requires Enabled(s, step)
  {
    match step
    case Spawn(t, addr) => s.(openers := s.openers[t := Looking(addr)])
    case Look(t) =>
      var addr := s.openers[t].addr;
      if AliveAt(s.pool, addr, s.alive) then s.(openers := s.openers - {t}, users := s.users + {s.pool[addr]})
      else s.(openers := s.openers[t := Dialling(addr)], pool := s.pool - {addr})
    case Connect(t, c) =>
      s.(openers := s.openers[t := Storing(s.openers[t].addr, c)], born := s.born + {c}, alive := s.alive + {c})
    case Fail(t) => s.(openers := s.openers - {t})
    case Store(t) =>
      var o := s.openers[t];
      if AliveAt(s.pool, o.addr, s.alive) then
        s.(openers := s.openers - {t}, users := s.users + {s.pool[o.addr]}, lost := s.lost + {o.channel},
           alive := s.alive - {o.channel})
      else
        s.(openers := s.openers[t := Registering(o.channel)], pool := s.pool[o.addr := o.channel],
           inserted := s.inserted + {o.channel})
    case Register(t) =>
      var c := s.openers[t].channel;
      s.(openers := s.openers - {t}, users := s.users + {c}, live := Pruned(s.live, HeldSet(s)) + [c],
         registered := s.registered + [c])
    case Scan(addrs) => s.(pool := s.pool - DeadAmong(s.pool, addrs, s.alive))
    case Use(addr) => s.(users := s.users + {s.pool[addr]})
    case Drop(c) => s.(users := s.users - {c})
    case Die(c) => s.(alive := s.alive - {c})
  }

  ghost predicate IsRun(run: seq<State>, steps: seq<Step>) {
    && |run| == |steps| + 1
    && run[0] == State(map[], [], {}, {}, map[], {}, {}, {}, [])
    && forall i :: 0 <= i < |steps| ==> Enabled(run[i], steps[i]) && run[i + 1] == Apply(run[i], steps[i])
  }

  predicate Awaits(s: State, c: Channel) {
    exists t :: t in s.openers && s.openers[t] == Registering(c)
  }

  predicate NoRepeats(xs: seq<Channel>) {
    forall i, j :: 0 <= i < j < |xs| ==> xs[i] != xs[j]
  }

  /** Each opener's channel is its own, and a channel waiting to be stored has no history. */
  ghost predicate OpenersInv(s: State) {
    && (forall t, u, c :: t in s.openers && u in s.openers && t != u ==>
                            !(Carries(s.openers[t], c) && Carries(s.openers[u], c)))
    && (forall t :: t in s.openers && s.openers[t].Storing? ==> Unstored(s, s.openers[t].channel))
    && (forall t :: t in s.openers && s.openers[t].Registering? ==> Unregistered(s, s.openers[t].channel))
  }

  predicate Unstored(s: State, c: Channel) {
    c in s.born && c !in s.inserted && c !in s.lost && c !in s.users
  }

  predicate Unregistered(s: State, c: Channel) {
    c in s.inserted && c !in s.registered
  }

  ghost predicate SetsInv(s: State) {
    && s.alive <= s.born && s.users <= s.inserted && s.inserted <= s.born && s.lost <= s.born && s.inserted !! s.lost
    && (forall a :: a in s.pool ==> s.pool[a] in s.inserted)
    && (forall c :: c in s.inserted ==> c in s.registered || Awaits(s, c))
    && (forall c :: c in s.registered ==> c in s.inserted)
  }

  ghost predicate RegistryInv(s: State) {
    && NoRepeats(s.registered) && NoRepeats(s.live)
    && (forall c :: c in s.live ==> c in s.registered)
    && (forall c :: c in s.registered && Held(s, c) ==> c in s.live)
  }

  ghost predicate Inv(s: State) {
    OpenersInv(s) && SetsInv(s) && RegistryInv(s)
  }

  lemma {:induction false} PrunedAt(live: seq<Channel>, held: set<Channel>)
    ensures forall c :: c in Pruned(live, held) <==> c in live && c in held
    ensures NoRepeats(live) ==> NoRepeats(Pruned(live, held))
  {
    if live == [] {
    } else {
      var front, last := live[..|live| - 1], live[|live| - 1];
      PrunedAt(front, held);
      assert live == front + [last];
      assert NoRepeats(live) ==> NoRepeats(front) && last !in front;
    }
  }

  lemma OpenersStep(s: State, step: Step)
    requires Inv(s) && Enabled(s, step)
    ensures OpenersInv(Apply(s, step))
  {
    var s' := Apply(s, step);
    forall t, u, c | t in s'.openers && u in s'.openers && Carries(s'.openers[t], c) && Carries(s'.openers[u], c)
      ensures t == u
    {
      CarriedBefore(s, step, t, c);
      CarriedBefore(s, step, u, c);
    }
    forall t | t in s'.openers && s'.openers[t].Storing?
      ensures Unstored(s', s'.openers[t].channel)
    {
      StoringStep(s, step, t);
    }
    forall t | t in s'.openers && s'.openers[t].Registering?
      ensures Unregistered(s', s'.openers[t].channel)
    {
      RegisteringStep(s, step, t);
    }
  }

  /** An opener carries a channel after a step only if it did before, or has just opened it. */
  lemma CarriedBefore(s: State, step: Step, t: nat, c: Channel)
    requires Inv(s) && Enabled(s, step)
    requires t in Apply(s, step).openers && Carries(Apply(s, step).openers[t], c)
    ensures step.Connect? && step.t == t ==> c == step.channel && c !in s.born
    ensures !(step.Connect? && step.t == t) ==> t in s.openers && Carries(s.openers[t], c) && c in s.born
  {
    if !(step.Connect? && step.t == t) {
      assert t in s.openers && Carries(s.openers[t], c);
      assert s.openers[t].Storing? ==> Unstored(s, c);
      assert s.openers[t].Registering? ==> Unregistered(s, c);
    }
  }

  lemma StoringStep(s: State, step: Step, t: nat)
    requires Inv(s) && Enabled(s, step)
    requires t in Apply(s, step).openers && Apply(s, step).openers[t].Storing?
    ensures Unstored(Apply(s, step), Apply(s, step).openers[t].channel)
  {
    var s' := Apply(s, step);
    var c := s'.openers[t].channel;
    CarriedBefore(s, step, t, c);
    if !(step.Connect? && step.t == t) {
      assert Unstored(s, c);
      if step.Store? || step.Register? {
        assert Carries(s.openers[step.t], s.openers[step.t].channel);
      }
    }
  }

  lemma RegisteringStep(s: State, step: Step, t: nat)
    requires Inv(s) && Enabled(s, step)
    requires t in Apply(s, step).openers && Apply(s, step).openers[t].Registering?
    ensures Unregistered(Apply(s, step), Apply(s, step).openers[t].channel)
  {
    var s' := Apply(s, step);
    var c := s'.openers[t].channel;
    CarriedBefore(s, step, t, c);
    if step.Store? && step.t == t {
      assert Unstored(s, c);
    } else {
      assert Unregistered(s, c);
      if step.Register? {
        assert Carries(s.openers[step.t], s.openers[step.t].channel);
      }
    }
  }

  lemma SetsStep(s: State, step: Step)
    requires Inv(s) && Enabled(s, step)
    ensures SetsInv(Apply(s, step))
  {
    var s' := Apply(s, step);
    if step.Store? {
      assert Unstored(s, s.openers[step.t].channel);
    }
    if step.Register? {
      assert Unregistered(s, s.openers[step.t].channel);
    }
    forall c | c in s'.inserted
      ensures c in s'.registered || Awaits(s', c)
    {
      AwaitsStep(s, step, c);
    }
  }

  lemma AwaitsStep(s: State, step: Step, c: Channel)
    requires Inv(s) && Enabled(s, step) && c in Apply(s, step).inserted
    ensures c in Apply(s, step).registered || Awaits(Apply(s, step), c)
  {
    var s' := Apply(s, step);
    if c in s.inserted {
      if c !in s.registered {
        var t :| t in s.openers && s.openers[t] == Registering(c);
        assert (step.Register? && step.t == t) || s'.openers[t] == Registering(c);
      }
    } else {
      assert s'.openers[step.t] == Registering(c);
    }
  }

  /** A registered channel is held after a step only if it was held before it. */
  lemma HeldStep(s: State, step: Step, c: Channel)
    requires Inv(s) && Enabled(s, step) && c in s.registered && Held(Apply(s, step), c)
    ensures Held(s, c)
  {
    var s' := Apply(s, step);
    if step.Store? {
      assert Unstored(s, s.openers[step.t].channel);
    } else if step.Register? {
      assert Unregistered(s, s.openers[step.t].channel);
    }
    if exists t :: t in s'.openers && Carries(s'.openers[t], c) {
      var t :| t in s'.openers && Carries(s'.openers[t], c);
      CarriedBefore(s, step, t, c);
    }
  }

  lemma RegistryStep(s: State, step: Step)
    requires Inv(s) && Enabled(s, step)
    ensures RegistryInv(Apply(s, step))
  {
    var s' := Apply(s, step);
    if step.Register? {
      RegisterStep(s, step.t);
    } else {
      forall c | c in s'.registered && Held(s', c)
        ensures c in s'.live
      {
        HeldStep(s, step, c);
      }
    }
  }

  lemma RegisterStep(s: State, t: nat)
    requires Inv(s) && Enabled(s, Register(t))
    ensures RegistryInv(Apply(s, Register(t)))
  {
    var s' := Apply(s, Register(t));
    var c := s.openers[t].channel;
    var kept := Pruned(s.live, HeldSet(s));
    PrunedAt(s.live, HeldSet(s));
    assert Unregistered(s, c);
    AppendNoRepeats(s.registered, c);
    AppendNoRepeats(kept, c);
    forall d | d in s'.registered && Held(s', d)
      ensures d in s'.live
    {
      if d != c {
        HeldStep(s, Register(t), d);
        assert d in HeldSet(s);
      }
    }
  }

  lemma AppendNoRepeats(xs: seq<Channel>, c: Channel)
    requires NoRepeats(xs) && c !in xs
    ensures NoRepeats(xs + [c])
  {
  }

  lemma {:induction false} InvHolds(run: seq<State>, steps: seq<Step>, i: nat)
    requires IsRun(run, steps) && i < |run|
    ensures Inv(run[i])
  {
    if i == 0 {
    } else {
      InvHolds(run, steps, i - 1);
      OpenersStep(run[i - 1], steps[i - 1]);
      SetsStep(run[i - 1], steps[i - 1]);
      RegistryStep(run[i - 1], steps[i - 1]);
    }
  }

  lemma AliveStays(s: State, step: Step, addr: string)
    requires Inv(s) && Enabled(s, step) && addr in s.pool
    requires s.pool[addr] in Apply(s, step).alive
    ensures AliveAt(s.pool, addr, s.alive)
    ensures addr in Apply(s, step).pool && Apply(s, step).pool[addr] == s.pool[addr]
  {
    assert s.pool[addr] in s.inserted;
  }

  /** A pooled channel keeps its place for as long as it is alive: no opener replaces it and no scan evicts it. */
  lemma {:induction false} AlivePooledStays(run: seq<State>, steps: seq<Step>, i: nat, j: nat, addr: string)
    requires IsRun(run, steps) && i <= j < |run|
    requires addr in run[i].pool && run[i].pool[addr] in run[j].alive
    ensures addr in run[j].pool && run[j].pool[addr] == run[i].pool[addr]
  {
    if i == j {
    } else {
      InvHolds(run, steps, j - 1);
      InvHolds(run, steps, i);
      StillAlive(run, steps, i, j, run[i].pool[addr]);
      AlivePooledStays(run, steps, i, j - 1, addr);
      AliveStays(run[j - 1], steps[j - 1], addr);
    }
  }

  /** A channel that exists and is alive later was alive all along. */
  lemma StillAlive(run: seq<State>, steps: seq<Step>, i: nat, j: nat, c: Channel)
    requires IsRun(run, steps) && i < j < |run| && c in run[i].born && c in run[j].alive
    ensures c in run[j - 1].alive
  {
    BornStays(run, steps, i, j - 1, c);
    assert run[j] == Apply(run[j - 1], steps[j - 1]);
  }

  lemma {:induction false} BornStays(run: seq<State>, steps: seq<Step>, i: nat, j: nat, c: Channel)
    requires IsRun(run, steps) && i <= j < |run| && c in run[i].born
    ensures c in run[j].born
  {
    if i == j {
    } else {
      BornStays(run, steps, i, j - 1, c);
      assert run[j] == Apply(run[j - 1], steps[j - 1]);
    }
  }

  /**
   Over the whole run no channel is registered twice; only pooled channels are, never a losing duplicate; and every
   pooled one has been, unless its opener is just about to.
   */
  lemma RegisteredExactlyOnce(run: seq<State>, steps: seq<Step>, i: nat, c: Channel)
    requires IsRun(run, steps) && i < |run|
    ensures NoRepeats(run[i].registered)
    ensures c in run[i].registered ==> c in run[i].inserted && c !in run[i].lost
    ensures c in run[i].inserted ==> (c in run[i].registered <==> !Awaits(run[i], c))
  {
    InvHolds(run, steps, i);
    if c in run[i].inserted && Awaits(run[i], c) {
      var t :| t in run[i].openers && run[i].openers[t] == Registering(c);
      assert Unregistered(run[i], run[i].openers[t].channel);
    }
  }

  /** The registry misses no channel in the pool or in use, once registered, and holds each at most once. */
  lemma RegistryComplete(run: seq<State>, steps: seq<Step>, i: nat, c: Channel)
    requires IsRun(run, steps) && i < |run|
    requires c in run[i].pool.Values || c in run[i].users
    ensures NoRepeats(run[i].live)
    ensures c in run[i].live || Awaits(run[i], c)
  {
    InvHolds(run, steps, i);
    assert Held(run[i], c);
    if c in run[i].pool.Values {
      var a :| a in run[i].pool && run[i].pool[a] == c;
    }
  }

  /** A losing opener ends up with the channel that is in the pool, and its own is gone for good. */
  lemma LosersReuse(run: seq<State>, steps: seq<Step>, i: nat, addr: string)
    requires IsRun(run, steps) && i < |steps| && steps[i].Store?
    requires run[i].openers[steps[i].t].addr == addr && AliveAt(run[i].pool, addr, run[i].alive)
    ensures var mine := run[i].openers[steps[i].t].channel;
            && run[i + 1].pool == run[i].pool && run[i + 1].live == run[i].live
            && run[i].pool[addr] in run[i + 1].users
            && mine !in run[i + 1].pool.Values && mine !in run[i + 1].live && mine in run[i + 1].lost
  {
    InvHolds(run, steps, i);
    InvHolds(run, steps, i + 1);
    var s := run[i];
    var mine := s.openers[steps[i].t].channel;
    assert Enabled(s, steps[i]) && run[i + 1] == Apply(s, steps[i]);
    assert Unstored(s, mine);
    assert forall a :: a in s.pool ==> s.pool[a] in s.inserted;
  }

  /** In every run, what is handed out is alive at that moment, or the opener's own channel. */
  lemma HandsOutAlive(run: seq<State>, steps: seq<Step>, i: nat, c: Channel)
    requires IsRun(run, steps) && i < |steps| && c !in run[i].users && c in run[i + 1].users
    ensures c in run[i].alive || (steps[i].Register? && run[i].openers[steps[i].t] == Registering(c))
  {
    assert Enabled(run[i], steps[i]) && run[i + 1] == Apply(run[i], steps[i]);
  }

  lemma {:induction false} DeadStaysDead(run: seq<State>, steps: seq<Step>, i: nat, j: nat, c: Channel)
    requires IsRun(run, steps) && i < j < |run| && steps[i] == Die(c) && c in run[i].born
    ensures c !in run[j].alive
  {
    assert run[j] == Apply(run[j - 1], steps[j - 1]);
    if j == i + 1 {
    } else {
      DeadStaysDead(run, steps, i, j - 1, c);
      BornStays(run, steps, i, j - 1, c);
    }
  }

  /** Once dead, a channel reaches nobody again, except the opener that was just registering it. */
  lemma DeadIsNotHandedOut(run: seq<State>, steps: seq<Step>, i: nat, j: nat, c: Channel)
    requires IsRun(run, steps) && i < j < |steps| && steps[i] == Die(c) && c in run[i].born
    requires c !in run[j].users && c in run[j + 1].users
    ensures steps[j].Register? && run[j].openers[steps[j].t] == Registering(c)
  {
    DeadStaysDead(run, steps, i, j, c);
    HandsOutAlive(run, steps, j, c);
  }

  /** A scan leaves no dead channel at the addresses it went through. */
  lemma ScanEvictsDead(s: State, addrs: seq<string>, addr: string)
    requires addr in addrs && addr in Apply(s, Scan(addrs)).pool
    ensures s.pool[addr] in s.alive && Apply(s, Scan(addrs)).pool[addr] == s.pool[addr]
  {
    DeadMeans(s.pool, addrs, s.alive);
  }

  /** An opener that nobody gets in the way of looks, dials, pools its channel and registers it. */
  lemma LoneOpenerPools(s: State, t: nat, addr: string, c: Channel)
    requires t !in s.openers && c !in s.born && !(addr in s.pool && s.pool[addr] in s.alive)
    ensures var s1 := Apply(s, Spawn(t, addr));
            var s2 := Apply(s1, Look(t));
            var s3 := Apply(s2, Connect(t, c));
            var s4 := Apply(s3, Store(t));
            var s5 := Apply(s4, Register(t));
            && s5.pool == s.pool[addr := c] && c in s5.alive && c in s5.users && t !in s5.openers
            && s5.registered == s.registered + [c] && s5.live == Pruned(s.live, HeldSet(s4)) + [c]
  {
    assert (s.pool - {addr})[addr := c] == s.pool[addr := c];
  }

  /** One that finds an alive channel takes it and dials nothing. */
  lemma OpenerReuses(s: State, t: nat, addr: string)
    requires t !in s.openers && addr in s.pool && s.pool[addr] in s.alive
    ensures Apply(Apply(s, Spawn(t, addr)), Look(t)) == s.(users := s.users + {s.pool[addr]})
  {
    var s1 := Apply(s, Spawn(t, addr));
    assert s1.openers - {t} == s.openers;
  }

  /** The registry forgets a channel its last user has dropped, at the next registration. */
  lemma DroppedIsForgotten(s: State, c: Channel, t: nat)
    requires Enabled(s, Register(t)) && c !in s.pool.Values
    requires forall u :: u in s.openers ==> !Carries(s.openers[u], c)
    ensures c !in Apply(Apply(s, Drop(c)), Register(t)).live
  {
    var dropped := Apply(s, Drop(c));
    assert !Held(dropped, c);
    assert Carries(s.openers[t], s.openers[t].channel);
    PrunedAt(dropped.live, HeldSet(dropped));
  }

  /** It keeps one in use through all registrations, dead and evicted from the pool or not. */
  lemma UsedIsKept(s: State, addr: string, t: nat)
    requires Inv(s) && Enabled(s, Use(addr)) && s.pool[addr] in s.live && Enabled(s, Register(t))
    ensures var c := s.pool[addr];
            var evicted := Apply(Apply(Apply(s, Use(addr)), Die(c)), Scan([addr]));
            addr !in evicted.pool && c in Apply(evicted, Register(t)).live
  {
    var c := s.pool[addr];
    var evicted := Apply(Apply(Apply(s, Use(addr)), Die(c)), Scan([addr]));
    assert [addr][0] == addr;
    assert c in evicted.users && c in s.inserted;
    assert Held(evicted, c);
    PrunedAt(evicted.live, HeldSet(evicted));
  }
}
