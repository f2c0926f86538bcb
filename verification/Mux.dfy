/** The state every connection of a channel shares: mux tables, reply waiters, counters, the wire. */
module Mux {
  import opened Base
  import opened Codec
  import opened ConnIds

  /** A registered queue's sending end; dropping it ends the queue. */
  type Sender = nat

  datatype Chan = Chan(
    closed: bool,
    waiters: set<I32>,
    conns: map<U32, Sender>,
    binds: map<U32, Sender>,
    nextConnId: U32)
  {
    /** `conn_id_in_use` ranges over both tables. */
    function InUse(): set<U32> {
      conns.Keys + binds.Keys
    }

    function Allocated(id: U32): Chan {
      this.(nextConnId := id)
    }

    function WithConn(id: U32, tx: Sender): Chan {
      if closed then this else this.(conns := conns[id := tx])
    }

    function WithBind(id: U32, tx: Sender): Chan {
      if closed then this else this.(binds := binds[id := tx])
    }

    function WithoutConn(id: U32): Chan {
      this.(conns := conns - {id})
    }

    function WithoutBind(id: U32): Chan {
      this.(binds := binds - {id})
    }

    function MarkedClosed(): Chan {
      if closed then this else Chan(true, {}, map[], map[], nextConnId)
    }
  }

  class ChannelState {
    var closed: bool
    var waiters: set<I32>
    var conns: map<U32, Sender>
    var binds: map<U32, Sender>
    var nextConnId: U32
    var seqNo: int
    /** The frames the transport has taken, in order. */
    var wire: seq<Message>

    ghost function Value(): Chan
      reads this
    {
      Chan(closed, waiters, conns, binds, nextConnId)
    }

    constructor ()
      ensures Value() == Chan(false, {}, map[], map[], 0)
      ensures seqNo == 0 && wire == []
    {
      closed, waiters, conns, binds, nextConnId := false, {}, map[], map[], 0;
      seqNo, wire := 0, [];
    }

    /** `next_seq`. The counter is an `i32`; running it out is not modelled. */
    method NextSeq() returns (s: I32)
      requires -0x8000_0000 <= seqNo < 0x7FFF_FFFF
      modifies this`seqNo
      ensures s == seqNo == old(seqNo) + 1
    {
      seqNo := seqNo + 1;
      s := seqNo;
    }

    /** `write_message` under the write lock; the transport decides whether it succeeds. */
    method Send(m: Message, ok: bool)
      modifies this`wire
      ensures wire == if ok then old(wire) + [m] else old(wire)
    {
      if ok {
        wire := wire + [m];
      }
    }

    method RegisterConn(id: U32, tx: Sender)
      modifies this`conns
      ensures Value() == old(Value()).WithConn(id, tx)
      ensures conns == if closed then old(conns) else old(conns)[id := tx]
    {
      if !closed {
        conns := conns[id := tx];
      }
    }

    method RegisterBind(id: U32, tx: Sender)
      modifies this`binds
      ensures Value() == old(Value()).WithBind(id, tx)
      ensures binds == if closed then old(binds) else old(binds)[id := tx]
    {
      if !closed {
        binds := binds[id := tx];
      }
    }

    method DeregisterConn(id: U32)
      modifies this`conns
      ensures Value() == old(Value()).WithoutConn(id)
      ensures conns == old(conns) - {id}
    {
      conns := conns - {id};
    }

    method MarkClosed()
      modifies this`closed, this`waiters, this`conns, this`binds
      ensures Value() == old(Value()).MarkedClosed()
      ensures closed
      ensures !old(closed) ==> waiters == {} && conns == map[] && binds == map[]
      ensures old(closed) ==> waiters == old(waiters) && conns == old(conns) && binds == old(binds)
    {
      if !closed {
        closed := true;
        waiters := {};
        conns := map[];
        binds := map[];
      }
    }

    /** `next_conn_id`: an id neither table holds. */
    method NextConnId() returns (id: U32)
      requires Target(conns.Keys + binds.Keys, MIN_CONN_ID, MAX_CONN_ID, Succ(nextConnId)) < MAX_CONN_ID
      modifies this`nextConnId
      ensures id !in conns && id !in binds && id < MAX_CONN_ID
      ensures Value() == old(Value()).Allocated(id)
      ensures nextConnId == id
    {
      id, nextConnId := AllocConnId(nextConnId, MIN_CONN_ID, MAX_CONN_ID, conns.Keys + binds.Keys);
    }
  }
}

/**
 `mark_closed` split at its lock boundaries and racing any number of registrations and removals. A
 registration holds its table's lock while it loads the flag and inserts.
 */
module Teardown {
  import opened Base
  import opened Mux

  datatype Table = Conns | Binds

  /** How far the one thread that won the compare-and-set has come. */
  datatype Closer = Open | Flagged | WaitersGone | ConnsGone | AllGone

  datatype Registrar =
    | Locked(table: Table, id: U32, tx: Sender)
    | Loaded(table: Table, id: U32, tx: Sender, sawClosed: bool)

  datatype State = State(
    closed: bool,
    closer: Closer,
    waiters: set<I32>,
    conns: map<U32, Sender>,
    binds: map<U32, Sender>,
    registrars: map<nat, Registrar>,
    created: set<Sender>,
    dropped: set<Sender>)
  {
    function At(t: Table): map<U32, Sender> {
      if t.Conns? then conns else binds
    }

    function Put(t: Table, m: map<U32, Sender>): State {
      if t.Conns? then this.(conns := m) else this.(binds := m)
    }

    predicate LockFree(t: Table) {
      forall tid :: tid in registrars ==> registrars[tid].table != t
    }

    /** Has the closing thread been through this table? */
    predicate Cleared(t: Table) {
      closer == AllGone || (closer == ConnsGone && t.Conns?)
    }
  }

  datatype Step =
    | CompareAndSet
    | ClearWaiters
    | ClearConns
    | ClearBinds
    | Lock(tid: nat, table: Table, id: U32, tx: Sender)
    | Load(tid: nat)
    | Finish(tid: nat)
    | Remove(table: Table, id: U32)
    | InsertWaiter(sequence: I32)
    | TakeWaiter(sequence: I32)

  predicate Enabled(s: State, step: Step) {
    match step
    case CompareAndSet => true
    case ClearWaiters => s.closer == Flagged
    case ClearConns => s.closer == WaitersGone && s.LockFree(Conns)
    case ClearBinds => s.closer == ConnsGone && s.LockFree(Binds)
    case Lock(tid, table, _, tx) => tid !in s.registrars && s.LockFree(table) && tx !in s.created
    case Load(tid) => tid in s.registrars && s.registrars[tid].Locked?
    case Finish(tid) => tid in s.registrars && s.registrars[tid].Loaded?
    case Remove(table, _) => s.LockFree(table)
    case InsertWaiter(_) => true
    case TakeWaiter(_) => true
  }

  function Apply(s: State, step: Step): (s': State)
    requires Enabled(s, step)
  {
    match step
    case CompareAndSet => if s.closed then s else s.(closed := true, closer := Flagged)
    case ClearWaiters => s.(waiters := {}, closer := WaitersGone)
    case ClearConns => s.(conns := map[], dropped := s.dropped + s.conns.Values, closer := ConnsGone)
    case ClearBinds => s.(binds := map[], dropped := s.dropped + s.binds.Values, closer := AllGone)
    case Lock(tid, table, id, tx) =>
      s.(registrars := s.registrars[tid := Locked(table, id, tx)], created := s.created + {tx})
    case Load(tid) =>
      var r := s.registrars[tid];
      s.(registrars := s.registrars[tid := Loaded(r.table, r.id, r.tx, s.closed)])
    case Finish(tid) =>
      var r := s.registrars[tid];
      var done := s.(registrars := s.registrars - {tid});
      if r.sawClosed then done.(dropped := s.dropped + {r.tx})
      else
        var table := s.At(r.table);
        var replaced := if r.id in table then {table[r.id]} else {};
        done.Put(r.table, table[r.id := r.tx]).(dropped := s.dropped + replaced)
    case Remove(table, id) =>
      var m := s.At(table);
      if id in m then s.Put(table, m - {id}).(dropped := s.dropped + {m[id]}) else s
    case InsertWaiter(sq) => s.(waiters := s.waiters + {sq})
    case TakeWaiter(sq) => s.(waiters := s.waiters - {sq})
  }

  ghost predicate Init(s: State) {
    s == State(false, Open, {}, map[], map[], map[], {}, {})
  }

  ghost predicate IsRun(run: seq<State>, steps: seq<Step>) {
    && |run| == |steps| + 1
    && Init(run[0])
    && forall i :: 0 <= i < |steps| ==> Enabled(run[i], steps[i]) && run[i + 1] == Apply(run[i], steps[i])
  }

  predicate Holds(s: State, t: Table, id: U32, tx: Sender) {
    id in s.At(t) && s.At(t)[id] == tx
  }

  /** Everything ever registered is in a table, in a registrar's hands, or dropped. */
  ghost predicate Accounted(s: State, tx: Sender) {
    || (exists t: Table, id: U32 :: Holds(s, t, id, tx))
    || (exists tid :: tid in s.registrars && s.registrars[tid].tx == tx)
    || tx in s.dropped
  }

  /** The table's lock is exclusive. */
  predicate OnePerTable(s: State) {
    forall a, b :: a in s.registrars && b in s.registrars && s.registrars[a].table == s.registrars[b].table ==> a == b
  }

  /** Who still holds a cleared table's lock has read the flag as set. */
  predicate SawClose(s: State) {
    forall tid :: tid in s.registrars && s.registrars[tid].Loaded? ==>
                    s.Cleared(s.registrars[tid].table) ==> s.registrars[tid].sawClosed
  }

  ghost predicate Inv(s: State) {
    && (s.closed <==> !s.closer.Open?)
    && OnePerTable(s) && SawClose(s)
    && (forall t: Table :: s.Cleared(t) ==> s.At(t) == map[])
    && (forall tx :: tx in s.created ==> Accounted(s, tx))
  }

  lemma InvStep(s: State, step: Step)
    requires Inv(s) && Enabled(s, step)
    ensures Inv(Apply(s, step))
  {
    var s' := Apply(s, step);
    ClosingStep(s, step);
    TablesStep(s, step);
    RegistrarsStep(s, step);
    forall tx | tx in s'.created
      ensures Accounted(s', tx)
    {
      AccountedStep(s, step, tx);
    }
    hide Accounted, Apply, Enabled;
  }

  lemma ClosingStep(s: State, step: Step)
    requires Inv(s) && Enabled(s, step)
    ensures Apply(s, step).closed <==> !Apply(s, step).closer.Open?
  {
  }

  lemma TablesStep(s: State, step: Step)
    requires Inv(s) && Enabled(s, step)
    ensures forall t: Table :: Apply(s, step).Cleared(t) ==> Apply(s, step).At(t) == map[]
  {
    hide Accounted;
    forall t: Table | Apply(s, step).Cleared(t)
      ensures Apply(s, step).At(t) == map[]
    {
      assert s.Cleared(t) ==> s.At(t) == map[];
    }
  }

  lemma RegistrarsStep(s: State, step: Step)
    requires Inv(s) && Enabled(s, step)
    ensures OnePerTable(Apply(s, step)) && SawClose(Apply(s, step))
  {
    hide Accounted;
  }

  lemma AccountedStep(s: State, step: Step, tx: Sender)
    requires Inv(s) && Enabled(s, step) && tx in Apply(s, step).created
    ensures Accounted(Apply(s, step), tx)
  {
    var s' := Apply(s, step);
    if step.Lock? && tx == step.tx {
      assert s'.registrars[step.tid].tx == tx;
    } else {
      assert Accounted(s, tx);
      if t: Table, id: U32 :| Holds(s, t, id, tx) {
        HeldStep(s, step, t, id, tx);
      } else if tx !in s.dropped {
        var tid :| tid in s.registrars && s.registrars[tid].tx == tx;
        RegistrarStep(s, step, tid);
      }
    }
  }

  lemma HeldStep(s: State, step: Step, t: Table, id: U32, tx: Sender)
    requires Enabled(s, step) && Holds(s, t, id, tx)
    ensures Holds(Apply(s, step), t, id, tx) || tx in Apply(s, step).dropped
  {
  }

  lemma RegistrarStep(s: State, step: Step, tid: nat)
    requires Enabled(s, step) && tid in s.registrars
    ensures Accounted(Apply(s, step), s.registrars[tid].tx)
  {
    var r := s.registrars[tid];
    var s' := Apply(s, step);
    if step == Finish(tid) {
      assert r.sawClosed || Holds(s', r.table, r.id, r.tx);
    } else {
      assert tid in s'.registrars && s'.registrars[tid].tx == r.tx;
    }
  }

  lemma {:induction false} InvHolds(run: seq<State>, steps: seq<Step>, i: nat)
    requires IsRun(run, steps) && i < |run|
    ensures Inv(run[i])
  {
    if i == 0 {
    } else {
      InvHolds(run, steps, i - 1);
      InvStep(run[i - 1], steps[i - 1]);
    }
  }

  lemma {:induction false} ClearedForever(run: seq<State>, steps: seq<Step>, i: nat, j: nat, t: Table)
    requires IsRun(run, steps) && i <= j < |run| && run[i].Cleared(t)
    ensures run[j].Cleared(t)
  {
    if i == j {
    } else {
      ClearedForever(run, steps, i, j - 1, t);
      InvHolds(run, steps, j - 1);
      assert Enabled(run[j - 1], steps[j - 1]);
    }
  }

  /**
   In every interleaving, once the closing thread has been through a table that table is empty for the rest
   of the run; and when it has finished and no registration is under way, every sender ever registered has
   been dropped.
   */
  lemma TornDownForGood(run: seq<State>, steps: seq<Step>, i: nat, j: nat, t: Table)
    requires IsRun(run, steps) && i <= j < |run| && run[i].Cleared(t)
    ensures run[j].At(t) == map[]
    ensures run[j].closer == AllGone && run[j].registrars == map[] ==> run[j].created <= run[j].dropped
  {
    ClearedForever(run, steps, i, j, t);
    InvHolds(run, steps, j);
    if run[j].closer == AllGone && run[j].registrars == map[] {
      assert run[j].Cleared(Conns) && run[j].Cleared(Binds);
      assert run[j].At(Conns) == map[] && run[j].At(Binds) == map[];
      forall tx | tx in run[j].created
        ensures tx in run[j].dropped
      {
        assert Accounted(run[j], tx);
      }
    }
  }

  /** Undisturbed, the four steps are the atomic `mark_closed` of the shared state. */
  lemma QuietClose(s: State, c: Chan)
    requires Inv(s) && s.registrars == map[] && !s.closed
    requires c == Chan(s.closed, s.waiters, s.conns, s.binds, c.nextConnId)
    ensures var s1 := Apply(s, CompareAndSet);
            var s2 := Apply(s1, ClearWaiters);
            var s3 := Apply(s2, ClearConns);
            var s4 := Apply(s3, ClearBinds);
            c.MarkedClosed() == Chan(s4.closed, s4.waiters, s4.conns, s4.binds, c.nextConnId)
  {
  }

  /**
   The reply-waiter table has no such guarantee: here a waiter registered between the two halves of the
   close outlives it.
   */
  lemma WaiterMayOutliveClose() returns (run: seq<State>, steps: seq<Step>)
    ensures IsRun(run, steps)
    ensures run[|run| - 1].closer == AllGone && run[|run| - 1].waiters == {7}
  {
    var s0 := State(false, Open, {}, map[], map[], map[], {}, {});
    steps := [CompareAndSet, ClearWaiters, InsertWaiter(7), ClearConns, ClearBinds];
    var s1 := Apply(s0, CompareAndSet);
    var s2 := Apply(s1, ClearWaiters);
    var s3 := Apply(s2, InsertWaiter(7));
    var s4 := Apply(s3, ClearConns);
    var s5 := Apply(s4, ClearBinds);
    run := [s0, s1, s2, s3, s4, s5];
  }

  /** The closing thread has been through the waiters. */
  predicate PastWaiters(s: State) {
    s.closed && !s.closer.Open? && !s.closer.Flagged?
  }

  lemma WaiterStep(s: State, step: Step, sq: I32)
    requires PastWaiters(s) && Enabled(s, step)
    ensures PastWaiters(Apply(s, step))
    ensures sq in Apply(s, step).waiters <==>
            step == InsertWaiter(sq) || (sq in s.waiters && step != TakeWaiter(sq))
  {
  }

  /** An insert of this waiter at `k` that nothing has taken by `j`. */
  ghost predicate Untaken(steps: seq<Step>, k: int, j: int, sq: I32) {
    && 0 <= k < j <= |steps| && steps[k] == InsertWaiter(sq)
    && forall l :: k < l < j ==> steps[l] != TakeWaiter(sq)
  }

  ghost predicate Pending(steps: seq<Step>, i: int, j: int, sq: I32) {
    exists k :: i < k && Untaken(steps, k, j, sq)
  }

  lemma RunStep(run: seq<State>, steps: seq<Step>, i: nat)
    requires IsRun(run, steps) && i < |steps|
    ensures Enabled(run[i], steps[i]) && run[i + 1] == Apply(run[i], steps[i])
  {
  }

  lemma RunLength(run: seq<State>, steps: seq<Step>)
    requires IsRun(run, steps)
    ensures |run| == |steps| + 1
  {
  }

  lemma NothingPending(steps: seq<Step>, i: nat, sq: I32)
    ensures !Pending(steps, i, i + 1, sq)
  {
  }

  lemma ClearingClears(run: seq<State>, steps: seq<Step>, i: nat)
    requires IsRun(run, steps) && i < |steps| && steps[i] == ClearWaiters
    ensures PastWaiters(run[i + 1]) && run[i + 1].waiters == {}
  {
    hide Accounted, OnePerTable, SawClose;
    RunStep(run, steps, i);
    InvHolds(run, steps, i);
    hide IsRun;
  }

  /**
   Exactly which waiters a close leaves behind: after its clearing step, a waiter is in the table if and only if it
   was inserted since and has not been taken.
   */
  lemma {:induction false} WaiterSurvivesIff(run: seq<State>, steps: seq<Step>, i: nat, j: nat, sq: I32)
    requires IsRun(run, steps) && i < j < |run| && steps[i] == ClearWaiters
    ensures PastWaiters(run[j])
    ensures sq in run[j].waiters <==> Pending(steps, i, j, sq)
  {
    hide *;
    RunLength(run, steps);
    if j == i + 1 {
      ClearingClears(run, steps, i);
      NothingPending(steps, i, sq);
    } else {
      WaiterSurvivesIff(run, steps, i, j - 1, sq);
      RunStep(run, steps, j - 1);
      WaiterStep(run[j - 1], steps[j - 1], sq);
      PendingStep(steps, i, j - 1, sq);
    }
  }

  lemma PendingStep(steps: seq<Step>, i: nat, j: nat, sq: I32)
    requires i < j < |steps|
    ensures Pending(steps, i, j + 1, sq) <==>
            steps[j] == InsertWaiter(sq) || (Pending(steps, i, j, sq) && steps[j] != TakeWaiter(sq))
  {
    if steps[j] == InsertWaiter(sq) {
      assert Untaken(steps, j, j + 1, sq);
    }
    if k :| i < k && Untaken(steps, k, j, sq) {
      assert steps[j] != TakeWaiter(sq) ==> Untaken(steps, k, j + 1, sq);
    }
    var next := j + 1;
    if k :| i < k && Untaken(steps, k, next, sq) {
      assert k < j ==> Untaken(steps, k, j, sq);
    }
  }

  /** So a caller that stops registering waiters before the close finds none after it. */
  lemma NoInsertNoWaiter(run: seq<State>, steps: seq<Step>, i: nat, j: nat)
    requires IsRun(run, steps) && i < j < |run| && steps[i] == ClearWaiters
    requires forall k :: i < k < j ==> !steps[k].InsertWaiter?
    ensures run[j].waiters == {}
  {
    forall sq: I32
      ensures sq !in run[j].waiters
    {
      WaiterSurvivesIff(run, steps, i, j, sq);
    }
  }

  /** An undisturbed registration is the atomic one of the shared state, on an open channel and on a closed one. */
  lemma QuietRegistration(s: State, c: Chan, tid: nat, t: Table, id: U32, tx: Sender)
    requires Inv(s) && s.registrars == map[] && tx !in s.created
    requires c == Chan(s.closed, s.waiters, s.conns, s.binds, c.nextConnId)
    ensures var s1 := Apply(s, Lock(tid, t, id, tx));
            var s2 := Apply(s1, Load(tid));
            var s3 := Apply(s2, Finish(tid));
            && (if t.Conns? then c.WithConn(id, tx) else c.WithBind(id, tx))
               == Chan(s3.closed, s3.waiters, s3.conns, s3.binds, c.nextConnId)
            && s3.registrars == map[]
            && (s.closed ==> tx in s3.dropped) && (!s.closed ==> Holds(s3, t, id, tx))
  {
    var s1 := Apply(s, Lock(tid, t, id, tx));
    var s2 := Apply(s1, Load(tid));
    assert s1.registrars == map[tid := Locked(t, id, tx)];
    assert s2.registrars == map[tid := Loaded(t, id, tx, s.closed)];
  }

  /** A removal takes out that sender and drops it, and nothing else. */
  lemma RemovalRemoves(s: State, t: Table, id: U32)
    requires Enabled(s, Remove(t, id))
    ensures var s' := Apply(s, Remove(t, id));
            && s'.At(t) == s.At(t) - {id}
            && (forall u: Table :: u != t ==> s'.At(u) == s.At(u))
            && s'.dropped == s.dropped + (if id in s.At(t) then {s.At(t)[id]} else {})
  {
    if id !in s.At(t) {
      assert s.At(t) - {id} == s.At(t);
    }
  }
}
