/** Hosting side: accepting inbound dials off a bind queue and completing them. */
module Accept {
  import opened Base
  import opened Codec
  import opened ConnIds
  import opened DialWire
  import opened Mux

  const CT_DIAL := 60787
  const CT_DIAL_SUCCESS := 60788
  const CT_DIAL_FAILED := 60789
  const HDR_PUBLIC_KEY := 1003
  const HDR_CRYPTO_METHOD := 1009
  const HDR_ROUTER_PROVIDED_CONN_ID := 1012
  const CRYPTO_METHOD_LIBSODIUM := 0

  /** A dial accepted but not acknowledged; `streamHeader` is there when the child is encrypted. */
  datatype PendingAccept = PendingAccept(
    bindConnId: U32,
    childId: U32,
    routerProvided: bool,
    dialSeq: I32,
    streamHeader: Option<Bytes>)

  datatype AcceptError = ListenerClosed | Channel | AcceptStartFailed

  function BuildDialSuccess(bindConnId: U32, childId: U32, dialSeq: I32, sequence: I32): Message {
    Message(CT_DIAL_SUCCESS, sequence,
            map[HDR_CONN_ID := Le(bindConnId), HDR_REPLY_FOR := Le(ToUnsigned(dialSeq))], Le(childId))
  }

  function BuildDialFailed(connId: U32, dialSeq: I32, reason: Bytes, sequence: I32): Message {
    Message(CT_DIAL_FAILED, sequence,
            map[HDR_CONN_ID := Le(connId), HDR_REPLY_FOR := Le(ToUnsigned(dialSeq))], reason)
  }

  // ----- the frames of one accept -----------------------------------------------------------------

  /** Addressed to the child, or answering its dial on the bind. */
  predicate Ours(p: PendingAccept, m: Message) {
    || HeaderU32(m, HDR_CONN_ID) == Some(p.childId)
    || (HeaderU32(m, HDR_CONN_ID) == Some(p.bindConnId) && HeaderI32(m, HDR_REPLY_FOR) == Some(p.dialSeq))
  }

  /** What the shared wire carries of this accept. */
  function Mine(p: PendingAccept, wire: seq<Message>): seq<Message> {
    if wire == [] then []
    else Mine(p, wire[..|wire| - 1]) + (if Ours(p, wire[|wire| - 1]) then [wire[|wire| - 1]] else [])
  }

  lemma MineSnoc(p: PendingAccept, wire: seq<Message>, m: Message)
    ensures Mine(p, wire + [m]) == Mine(p, wire) + if Ours(p, m) then [m] else []
  {
    Snoc(wire, m);
  }

  /** The frames that went through. */
  function Delivered(sent: seq<Message>, went: seq<bool>): seq<Message>
    requires |sent| == |went|
  {
    if sent == [] then []
    else
      var n := |sent| - 1;
      Delivered(sent[..n], went[..n]) + (if went[n] then [sent[n]] else [])
  }

  lemma DeliveredSnoc(sent: seq<Message>, went: seq<bool>, m: Message, ok: bool)
    requires |sent| == |went|
    ensures Delivered(sent + [m], went + [ok]) == Delivered(sent, went) + if ok then [m] else []
  {
    Snoc(sent, m);
    Snoc(went, ok);
  }

  /** Every frame an accept sends is its own, whatever its number. */
  lemma OursBuilt(p: PendingAccept, data: Bytes, first: bool, sequence: I32)
    ensures Ours(p, DialSuccessOf(p).(sequence := sequence))
    ensures Ours(p, BuildDialFailed(p.childId, p.dialSeq, data, -1).(sequence := sequence))
    ensures Ours(p, BuildDialFailed(p.bindConnId, p.dialSeq, data, -1).(sequence := sequence))
    ensures Ours(p, BuildStateClosed(p.childId).(sequence := sequence))
    ensures Ours(p, BuildData(p.childId, data, first).(sequence := sequence))
  {
    BuiltFrames(p.childId, data, first, sequence);
    FromLeLe(p.childId);
    FromLeLe(p.bindConnId);
    FromLeLe(ToUnsigned(p.dialSeq));
    hide Le, FromLe;
  }

  // ----- interference ---------------------------------------------------------------------------------

  /** What other tasks may do to the shared state while an accept is suspended. */
  datatype Other =
    | Registers(id: U32, tx: Sender)
    | Deregisters(id: U32)
    | Binds(id: U32, tx: Sender)
    | Unbinds(id: U32)
    | TakesId(id: U32)
    | TakesSeq
    | Waits(sequence: I32)
    | TakesWaiter(sequence: I32)
    | Writes(m: Message)
    | Closes

  /** Other tasks register other ids, wait on other sequence numbers and write frames of their own. */
  predicate KeepsOff(ops: seq<Other>, p: PendingAccept, sequence: Option<I32>) {
    forall i :: 0 <= i < |ops| ==>
      && (ops[i].Registers? ==> ops[i].id != p.childId)
      && (ops[i].Waits? ==> Some(ops[i].sequence) != sequence)
      && (ops[i].Writes? ==> !Ours(p, ops[i].m))
  }

  /** One such step, on the shared tables. */
  function Effect(c: Chan, op: Other): Chan {
    match op
    case Registers(id, tx) => c.WithConn(id, tx)
    case Deregisters(id) => c.WithoutConn(id)
    case Binds(id, tx) => c.WithBind(id, tx)
    case Unbinds(id) => c.WithoutBind(id)
    case TakesId(id) => c.Allocated(id)
    case Waits(sq) => c.(waiters := c.waiters + {sq})
    case TakesWaiter(sq) => c.(waiters := c.waiters - {sq})
    case Closes => c.MarkedClosed()
    case _ => c
  }

  function Effects(c: Chan, ops: seq<Other>): Chan {
    if ops == [] then c else Effect(Effects(c, ops[..|ops| - 1]), ops[|ops| - 1])
  }

  lemma {:induction false} EffectsAppend(c: Chan, xs: seq<Other>, ys: seq<Other>)
    ensures Effects(c, xs + ys) == Effects(Effects(c, xs), ys)
  {
    if ys == [] {
      Unit(xs);
    } else {
      EffectsAppend(c, xs, ys[..|ys| - 1]);
      assert (xs + ys)[..|xs + ys| - 1] == xs + ys[..|ys| - 1];
    }
  }

  /** Two states that differ at most in these connections and these waiters. */
  predicate Alike(a: Chan, b: Chan, ids: set<U32>, sequences: set<I32>) {
    && a.closed == b.closed && a.binds == b.binds && a.nextConnId == b.nextConnId
    && a.conns - ids == b.conns - ids && a.waiters - sequences == b.waiters - sequences
  }

  lemma AlikeStep(a: Chan, b: Chan, op: Other, ids: set<U32>, sequences: set<I32>)
    requires Alike(a, b, ids, sequences)
    ensures Alike(Effect(a, op), Effect(b, op), ids, sequences)
  {
    var a', b' := Effect(a, op), Effect(b, op);
    forall k | k !in ids
      ensures k in a'.conns <==> k in b'.conns
      ensures k in a'.conns ==> a'.conns[k] == b'.conns[k]
    {
      assert k in a.conns - ids <==> k in b.conns - ids;
      assert k in a.conns ==> (a.conns - ids)[k] == (b.conns - ids)[k];
    }
    forall w | w !in sequences
      ensures w in a'.waiters <==> w in b'.waiters
    {
      assert w in a.waiters - sequences <==> w in b.waiters - sequences;
    }
  }

  /** What others do keeps two such states alike. */
  lemma {:induction false} AlikeEffects(a: Chan, b: Chan, ops: seq<Other>, ids: set<U32>, sequences: set<I32>)
    requires Alike(a, b, ids, sequences)
    ensures Alike(Effects(a, ops), Effects(b, ops), ids, sequences)
  {
    if ops == [] {
    } else {
      hide Alike, Effect;
      AlikeEffects(a, b, ops[..|ops| - 1], ids, sequences);
      AlikeStep(Effects(a, ops[..|ops| - 1]), Effects(b, ops[..|ops| - 1]), ops[|ops| - 1], ids, sequences);
    }
  }

  lemma AlikeTransitive(a: Chan, b: Chan, c: Chan, ids: set<U32>, more: set<U32>, sequences: set<I32>)
    requires Alike(a, b, ids, sequences) && Alike(b, c, more, sequences) && ids <= more
    ensures Alike(a, c, more, sequences)
  {
    forall k | k !in more
      ensures k in a.conns <==> k in c.conns
      ensures k in a.conns ==> a.conns[k] == c.conns[k]
    {
      assert k in a.conns - ids <==> k in b.conns - ids;
      assert k in b.conns - more <==> k in c.conns - more;
      assert k in a.conns ==> (a.conns - ids)[k] == (b.conns - ids)[k] && (b.conns - more)[k] == (c.conns - more)[k];
    }
  }

  /** One part of a completion after another, each alike to what others did meanwhile. */
  lemma AlikeChain(a: Chan, b: Chan, c: Chan, xs: seq<Other>, ys: seq<Other>, ids: set<U32>, sequences: set<I32>)
    requires Alike(b, Effects(a, xs), {}, sequences) && Alike(c, Effects(b, ys), ids, sequences)
    ensures Alike(c, Effects(a, xs + ys), ids, sequences)
  {
    hide Alike, Effects;
    AlikeEffects(b, Effects(a, xs), ys, {}, sequences);
    EffectsAppend(a, xs, ys);
    AlikeWiden(Effects(b, ys), Effects(a, xs + ys), ids, sequences);
    AlikeTransitive(c, Effects(b, ys), Effects(a, xs + ys), ids, ids, sequences);
  }

  lemma AlikeWiden(a: Chan, b: Chan, ids: set<U32>, sequences: set<I32>)
    requires Alike(a, b, {}, sequences)
    ensures Alike(a, b, ids, sequences)
  {
    assert a.conns - {} == a.conns && b.conns - {} == b.conns;
  }

  method Intervene(state: ChannelState, op: Other, ghost p: PendingAccept)
    requires op.Writes? ==> !Ours(p, op.m)
    requires -0x8000_0000 <= state.seqNo < 0x7FFF_FFFF
    modifies state
    ensures Mine(p, state.wire) == Mine(p, old(state.wire))
    ensures old(state.seqNo) <= state.seqNo <= old(state.seqNo) + 1
    ensures state.Value() == Effect(old(state.Value()), op)
  {
    hide Mine, Ours;
    match op {
      case Registers(id, tx) => state.RegisterConn(id, tx);
      case Deregisters(id) => state.DeregisterConn(id);
      case Binds(id, tx) => state.RegisterBind(id, tx);
      case Unbinds(id) => state.binds := state.binds - {id};
      case TakesId(id) => state.nextConnId := id;
      case TakesSeq => var _ := state.NextSeq();
      case Waits(sq) => state.waiters := state.waiters + {sq};
      case TakesWaiter(sq) => state.waiters := state.waiters - {sq};
      case Writes(m) =>
        MineSnoc(p, state.wire, m);
        Unit(Mine(p, state.wire));
        state.Send(m, true);
      case Closes => state.MarkClosed();
    }
  }

  /** Others run: on the wire they add nothing to this accept, and to the tables exactly what they do. */
  method Interleave(state: ChannelState, ops: seq<Other>, ghost p: PendingAccept, ghost sequence: Option<I32>)
    requires KeepsOff(ops, p, sequence)
    requires -0x8000_0000 <= state.seqNo && state.seqNo + |ops| < 0x7FFF_FFFF
    modifies state
    ensures Mine(p, state.wire) == Mine(p, old(state.wire))
    ensures old(state.seqNo) <= state.seqNo <= old(state.seqNo) + |ops|
    ensures state.Value() == Effects(old(state.Value()), ops)
    ensures p.childId !in old(state.conns) ==> p.childId !in state.conns
    ensures sequence.Some? && sequence.value !in old(state.waiters) ==> sequence.value !in state.waiters
    ensures ops == [] ==> state.wire == old(state.wire)
  {
    hide Mine, Ours, Effect, Effects;
    NoEffect(state.Value());
    assert ops[..|ops|] == ops;
    for i := 0 to |ops|
      invariant Mine(p, state.wire) == Mine(p, old(state.wire))
      invariant old(state.seqNo) <= state.seqNo <= old(state.seqNo) + i
      invariant state.Value() == Effects(old(state.Value()), ops[..i])
      invariant i == 0 ==> state.wire == old(state.wire)
    {
      OneEffect(old(state.Value()), ops, i);
      Intervene(state, ops[i], p);
    }
    KeptOff(old(state.Value()), ops, p, sequence, |ops|);
  }

  lemma OneEffect(c: Chan, ops: seq<Other>, i: nat)
    requires i < |ops|
    ensures Effects(c, ops[..i + 1]) == Effect(Effects(c, ops[..i]), ops[i])
  {
    assert ops[..i + 1][..i] == ops[..i];
  }

  /** Who keeps off a vacant child and waiter leaves them vacant. */
  lemma {:induction false} KeptOff(c: Chan, ops: seq<Other>, p: PendingAccept, sequence: Option<I32>, n: nat)
    requires KeepsOff(ops, p, sequence) && n <= |ops|
    ensures p.childId !in c.conns ==> p.childId !in Effects(c, ops[..n]).conns
    ensures sequence.Some? && sequence.value !in c.waiters ==> sequence.value !in Effects(c, ops[..n]).waiters
  {
    if n == 0 {
    } else {
      hide Effects, Effect, Ours;
      KeptOff(c, ops, p, sequence, n - 1);
      OneEffect(c, ops, n - 1);
      KeptOffStep(Effects(c, ops[..n - 1]), ops[n - 1], p.childId, sequence);
    }
  }

  lemma KeptOffStep(c: Chan, op: Other, id: U32, sequence: Option<I32>)
    requires op.Registers? ==> op.id != id
    requires op.Waits? ==> Some(op.sequence) != sequence
    ensures id !in c.conns ==> id !in Effect(c, op).conns
    ensures sequence.Some? && sequence.value !in c.waiters ==> sequence.value !in Effect(c, op).waiters
  {
  }

  /** How the router answers the DialSuccess of a generated id within the five-second budget. */
  datatype StartReply = Answered(contentType: I32) | Unanswered

  /** Every choice the environment makes during one completion. */
  datatype Env = Env(
    successOk: bool,
    start: StartReply,
    closingOk: bool,
    headerOk: bool,
    duringSuccess: seq<Other>,
    duringStart: seq<Other>,
    duringClosing: seq<Other>,
    duringHeader: seq<Other>)
  {
    predicate Started() {
      start == Answered(CT_STATE_CONNECTED)
    }

    function Load(): nat {
      |duringSuccess| + |duringStart| + |duringClosing| + |duringHeader| + 4
    }
  }

  predicate Polite(env: Env, p: PendingAccept, sequence: I32) {
    && KeepsOff(env.duringSuccess, p, Some(sequence))
    && KeepsOff(env.duringStart, p, Some(sequence))
    && KeepsOff(env.duringClosing, p, Some(sequence))
    && KeepsOff(env.duringHeader, p, Some(sequence))
  }

  /** Nobody else runs. */
  predicate Quiet(env: Env) {
    env.duringSuccess == [] && env.duringStart == [] && env.duringClosing == [] && env.duringHeader == []
  }

  function Unnumbered(ms: seq<Message>): (r: seq<Message>)
    ensures |r| == |ms|
  {
    seq(|ms|, i requires 0 <= i < |ms| => ms[i].(sequence := -1))
  }

  function DialSuccessOf(p: PendingAccept): Message {
    BuildDialSuccess(p.bindConnId, p.childId, p.dialSeq, -1)
  }

  function HeaderOf(p: PendingAccept): seq<Message> {
    match p.streamHeader case None => [] case Some(h) => [BuildData(p.childId, h, true)]
  }

  /** "start reply not received" */
  const NO_START: Bytes := [
    0x73, 0x74, 0x61, 0x72, 0x74, 0x20, 0x72, 0x65, 0x70, 0x6c, 0x79, 0x20,
    0x6e, 0x6f, 0x74, 0x20, 0x72, 0x65, 0x63, 0x65, 0x69, 0x76, 0x65, 0x64]

  /** What others ran while the start reply was awaited, and while its failure was being answered. */
  function RanAwaiting(env: Env): seq<Other> {
    if env.Started() then env.duringStart else env.duringStart + env.duringClosing
  }

  /** What others ran during the whole of a completion. */
  function Ran(p: PendingAccept, closed: bool, env: Env): seq<Other> {
    if TooLate(p, closed) then env.duringClosing
    else if !env.successOk then env.duringSuccess
    else env.duringSuccess + RanAfter(p, env)
  }

  /** The start reply that counts. */
  lemma StartedIs(env: Env)
    ensures env.Started() <==> env.start == Answered(60784)
  {
  }

  /**
   What the other side finds in the answers to a dial: to the bind, for that dial; the child's id in the body of a
   success, the reason in the body of a failure; and the stream header on the child's first frame.
   */
  lemma DialReplies(p: PendingAccept, connId: U32, reason: Bytes, sequence: I32)
    ensures var m := DialSuccessOf(p).(sequence := sequence);
            && m.contentType == 60788 && HeaderU32(m, 1000) == Some(p.bindConnId)
            && HeaderI32(m, 1) == Some(p.dialSeq) && IsWord(m.body, p.childId)
    ensures var m := BuildDialFailed(connId, p.dialSeq, reason, -1).(sequence := sequence);
            && m.contentType == 60789 && HeaderU32(m, 1000) == Some(connId)
            && HeaderI32(m, 1) == Some(p.dialSeq) && m.body == reason
    ensures p.streamHeader.None? ==> HeaderOf(p) == []
    ensures p.streamHeader.Some? ==>
              && |HeaderOf(p)| == 1
              && var m := HeaderOf(p)[0];
                 && m.contentType == 60786 && HeaderU32(m, 1000) == Some(p.childId)
                 && HasMultipart(m) && !HasFin(m) && m.body == p.streamHeader.value
  {
    if p.streamHeader.Some? {
      BuiltFrames(p.childId, p.streamHeader.value, true, -1);
    }
    FromLeLe(p.bindConnId);
    FromLeLe(connId);
    FromLeLe(ToUnsigned(p.dialSeq));
    LeBytes(p.childId);
    hide Le, FromLe, HasFin, HasMultipart, BuildData;
  }

  /** Sends one frame under the next sequence number; returns it for the caller's record. */
  method Emit(state: ChannelState, m: Message, ok: bool) returns (sent: Message)
    requires -0x8000_0000 <= state.seqNo < 0x7FFF_FFFF
    modifies state`seqNo, state`wire
    ensures state.seqNo == old(state.seqNo) + 1
    ensures sent == m.(sequence := state.seqNo)
    ensures state.wire == old(state.wire) + if ok then [sent] else []
  {
    var s := state.NextSeq();
    sent := m.(sequence := s);
    state.Send(sent, ok);
  }

  /** The same for a frame of this accept: it is all the wire gains of it. */
  method EmitOurs(state: ChannelState, ghost p: PendingAccept, m: Message, ok: bool) returns (sent: Message)
    requires -0x8000_0000 <= state.seqNo < 0x7FFF_FFFF
    requires forall sq: I32 :: Ours(p, m.(sequence := sq))
    modifies state`seqNo, state`wire
    ensures state.seqNo == old(state.seqNo) + 1
    ensures sent == m.(sequence := state.seqNo)
    ensures Mine(p, state.wire) == Mine(p, old(state.wire)) + if ok then [sent] else []
    ensures state.wire == old(state.wire) + if ok then [sent] else []
  {
    hide Mine, Ours;
    sent := Emit(state, m, ok);
    if ok {
      MineSnoc(p, old(state.wire), sent);
    } else {
      Unit(old(state.wire));
      Unit(Mine(p, state.wire));
    }
  }

  lemma OursAnyNumber(p: PendingAccept, data: Bytes, first: bool)
    ensures forall sq: I32 :: Ours(p, DialSuccessOf(p).(sequence := sq))
    ensures forall sq: I32 :: Ours(p, BuildDialFailed(p.childId, p.dialSeq, data, -1).(sequence := sq))
    ensures forall sq: I32 :: Ours(p, BuildDialFailed(p.bindConnId, p.dialSeq, data, -1).(sequence := sq))
    ensures forall sq: I32 :: Ours(p, BuildStateClosed(p.childId).(sequence := sq))
    ensures forall sq: I32 :: Ours(p, BuildData(p.childId, data, first).(sequence := sq))
  {
    hide *;
    forall sq: I32
      ensures Ours(p, DialSuccessOf(p).(sequence := sq))
      ensures Ours(p, BuildDialFailed(p.childId, p.dialSeq, data, -1).(sequence := sq))
      ensures Ours(p, BuildDialFailed(p.bindConnId, p.dialSeq, data, -1).(sequence := sq))
      ensures Ours(p, BuildStateClosed(p.childId).(sequence := sq))
      ensures Ours(p, BuildData(p.childId, data, first).(sequence := sq))
    {
      OursBuilt(p, data, first, sq);
    }
  }

  /**
   `await_start_reply`. A wrong answer closes the child; silence fails the dial. Exactly one of the two
   frames goes out, and either way the child and the waiter are gone.
   */
  method AwaitStartReply(state: ChannelState, p: PendingAccept, replySeq: I32, env: Env)
    returns (r: Result<(), AcceptError>, sent: seq<Message>, went: seq<bool>)
    requires Polite(env, p, replySeq)
    requires -0x8000_0000 <= state.seqNo && state.seqNo + |env.duringStart| + |env.duringClosing| + 1 < 0x7FFF_FFFF
    modifies state
    ensures r == if env.Started() then Ok(()) else Err(AcceptStartFailed)
    ensures r.Ok? ==> sent == [] && went == []
    ensures r.Err? ==>
              && went == [env.closingOk]
              && Unnumbered(sent) == [if env.start.Answered? then BuildStateClosed(p.childId)
                                      else BuildDialFailed(p.childId, p.dialSeq, NO_START, -1)]
    ensures |sent| == |went| && Mine(p, state.wire) == Mine(p, old(state.wire)) + Delivered(sent, went)
    ensures r.Err? ==> p.childId !in state.conns
    ensures replySeq !in state.waiters
    ensures old(state.seqNo) <= state.seqNo <= old(state.seqNo) + |env.duringStart| + |env.duringClosing| + 1
    ensures Quiet(env) ==> state.wire == old(state.wire) + Delivered(sent, went)
    ensures Alike(state.Value(), Effects(old(state.Value()), RanAwaiting(env)),
                  if r.Ok? then {} else {p.childId}, {replySeq})
  {
    OursAnyNumber(p, NO_START, false);
    ClosedUnnumbered(p.childId);
    FailedUnnumbered(p.childId, p.dialSeq, NO_START);
    Nothing();
    hide Mine, Ours, KeepsOff, BuildDialFailed, BuildStateClosed, BuildData, Delivered, Unnumbered, Effects, Alike;
    ghost var before, wire := Mine(p, state.wire), state.wire;
    Unit(before);
    Unit(wire);
    ghost var c0 := state.Value();
    Interleave(state, env.duringStart, p, Some(replySeq));
    ghost var c1 := state.Value();
    EffectsAppend(c0, env.duringStart, env.duringClosing);
    var m;
    match env.start {
      case Answered(ct) =>
        // The receive loop takes the waiter out as it hands the reply over.
        state.waiters := state.waiters - {replySeq};
        OwnChange(c1, state.Value(), {}, {replySeq});
        if ct == CT_STATE_CONNECTED {
          return Ok(()), [], [];
        }
        m := EmitOurs(state, p, BuildStateClosed(p.childId), env.closingOk);
        ghost var c2 := state.Value();
        Interleave(state, env.duringClosing, p, Some(replySeq));
        AlikeEffects(c2, c1, env.duringClosing, {}, {replySeq});
        ghost var c3 := state.Value();
        state.DeregisterConn(p.childId);
        AlikeWithout(c3, Effects(c1, env.duringClosing), p.childId, {replySeq});
      case Unanswered =>
        state.waiters := state.waiters - {replySeq};
        state.DeregisterConn(p.childId);
        OwnChange(c1, state.Value(), {p.childId}, {replySeq});
        m := EmitOurs(state, p, BuildDialFailed(p.childId, p.dialSeq, NO_START, -1), env.closingOk);
        ghost var c2 := state.Value();
        Interleave(state, env.duringClosing, p, Some(replySeq));
        AlikeEffects(c2, c1, env.duringClosing, {p.childId}, {replySeq});
    }
    Record(before, [], [], m, env.closingOk);
    Record(wire, [], [], m, env.closingOk);
    return Err(AcceptStartFailed), [m], [env.closingOk];
  }

  /** A step of the accept's own. */
  lemma OwnChange(c: Chan, c': Chan, ids: set<U32>, sequences: set<I32>)
    requires c' == c.(conns := c'.conns, waiters := c'.waiters)
    requires c'.conns - ids == c.conns - ids && c'.waiters - sequences == c.waiters - sequences
    ensures Alike(c', c, ids, sequences)
  {
  }

  lemma AlikeWithout(a: Chan, b: Chan, id: U32, sequences: set<I32>)
    requires Alike(a, b, {}, sequences)
    ensures Alike(a.WithoutConn(id), b, {id}, sequences)
  {
    assert a.conns - {} == a.conns && b.conns - {} == b.conns;
    assert a.conns - {id} - {id} == a.conns - {id};
  }

  lemma ClosedUnnumbered(connId: U32)
    ensures BuildStateClosed(connId).sequence == -1
  {
  }

  lemma FailedUnnumbered(connId: U32, dialSeq: I32, reason: Bytes)
    ensures BuildDialFailed(connId, dialSeq, reason, -1).sequence == -1
  {
  }

  lemma DataUnnumbered(connId: U32, data: Bytes)
    ensures BuildData(connId, data, true).sequence == -1
  {
  }

  /** A generated id needs an open channel to be announced on. */
  predicate TooLate(p: PendingAccept, closed: bool) {
    !p.routerProvided && closed
  }

  /**
   `complete_success`, for every environment. Success means DialSuccess first, then the stream header if there
   is one, and for a generated id only after StateConnected. Any failure leaves neither the child nor the
   reply waiter registered. `sent` and `went` are the frames tried and whether the transport took them; the wire
   gains exactly those it took, and of a start that failed exactly one StateClosed or DialFailed.
   */
  method CompleteSuccess(state: ChannelState, p: PendingAccept, env: Env)
    returns (r: Result<(), AcceptError>, sent: seq<Message>, went: seq<bool>)
    requires -0x8000_0000 <= state.seqNo && state.seqNo + env.Load() < 0x7FFF_FFFF
    requires forall w :: w in state.waiters ==> w <= state.seqNo
    requires Polite(env, p, state.seqNo + 1)
    modifies state
    ensures |sent| == |went| && Mine(p, state.wire) == Mine(p, old(state.wire)) + Delivered(sent, went)
    ensures r.Ok? <==>
              && (p.routerProvided || (!old(state.closed) && env.Started()))
              && env.successOk
              && (p.streamHeader.Some? ==> env.headerOk)
    ensures r.Err? ==> p.childId !in state.conns && old(state.seqNo) + 1 !in state.waiters
    ensures TooLate(p, old(state.closed)) ==>
              && r == Err(AcceptStartFailed) && went == [env.closingOk]
              && Unnumbered(sent) == [BuildDialFailed(p.childId, p.dialSeq, NO_START, -1)]
    ensures !TooLate(p, old(state.closed)) && !env.successOk ==>
              r == Err(Channel) && Unnumbered(sent) == [DialSuccessOf(p)] && went == [false]
    ensures !TooLate(p, old(state.closed)) && env.successOk && !p.routerProvided && !env.Started() ==>
              && r == Err(AcceptStartFailed) && went == [true, env.closingOk]
              && Unnumbered(sent) ==
                 [DialSuccessOf(p),
                  if env.start.Answered? then BuildStateClosed(p.childId)
                  else BuildDialFailed(p.childId, p.dialSeq, NO_START, -1)]
    ensures !TooLate(p, old(state.closed)) && env.successOk && (p.routerProvided || env.Started()) ==>
              && r == (if p.streamHeader.Some? && !env.headerOk then Err(Channel) else Ok(()))
              && Unnumbered(sent) == [DialSuccessOf(p)] + HeaderOf(p)
              && went == [true] + (if p.streamHeader.Some? then [env.headerOk] else [])
    ensures Quiet(env) ==> state.wire == old(state.wire) + Delivered(sent, went)
    ensures var others := Effects(old(state.Value()), Ran(p, old(state.closed), env));
            state.Value() == others.(conns := if r.Ok? then others.conns else others.conns - {p.childId},
                                     waiters := others.waiters - {old(state.seqNo) + 1})
  {
    hide Mine, Ours, KeepsOff, BuildDialFailed, BuildStateClosed, BuildData, BuildDialSuccess, Delivered, Unnumbered,
         Effects, Alike, Ran, RanAwaiting;
    ghost var c0, mySeq: I32 := state.Value(), state.seqNo + 1;
    RanCases(p, state.closed, env);
    ghost var before, wire := Mine(p, state.wire), state.wire;
    if !p.routerProvided && state.closed {
      sent, went := FailTooLate(state, p, env);
      Settled(state.Value(), Effects(c0, env.duringClosing), p.childId, mySeq, false);
      return Err(AcceptStartFailed), sent, went;
    }
    var replySeq;
    replySeq, sent, went := AnnounceSuccess(state, p, env);
    if !env.successOk {
      Settled(state.Value(), Effects(c0, env.duringSuccess), p.childId, mySeq, false);
      return Err(Channel), sent, went;
    }
    ghost var c1 := state.Value();
    var more, moreWent;
    r, more, moreWent := CompleteAnnounced(state, p, replySeq, env);
    RecordAll(before, sent, went, more, moreWent);
    RecordAll(wire, sent, went, more, moreWent);
    AlikeChain(c0, c1, state.Value(), env.duringSuccess, RanAfter(p, env), if r.Ok? then {} else {p.childId}, {mySeq});
    Settled(state.Value(), Effects(c0, env.duringSuccess + RanAfter(p, env)), p.childId, mySeq, r.Ok?);
    sent, went := sent + more, went + moreWent;
  }

  /** A generated id on a closed channel: there is nobody to announce it to. */
  method FailTooLate(state: ChannelState, p: PendingAccept, env: Env) returns (sent: seq<Message>, went: seq<bool>)
    requires -0x8000_0000 <= state.seqNo && state.seqNo + |env.duringClosing| + 1 < 0x7FFF_FFFF
    requires forall w :: w in state.waiters ==> w <= state.seqNo
    requires Polite(env, p, state.seqNo + 1)
    modifies state
    ensures |sent| == |went| && went == [env.closingOk]
    ensures Unnumbered(sent) == [BuildDialFailed(p.childId, p.dialSeq, NO_START, -1)]
    ensures Mine(p, state.wire) == Mine(p, old(state.wire)) + Delivered(sent, went)
    ensures p.childId !in state.conns && old(state.seqNo) + 1 !in state.waiters
    ensures Quiet(env) ==> state.wire == old(state.wire) + Delivered(sent, went)
    ensures Alike(state.Value(), Effects(old(state.Value()), env.duringClosing), {p.childId}, {old(state.seqNo) + 1})
  {
    hide Mine, Ours, KeepsOff, BuildDialFailed, BuildStateClosed, BuildData, BuildDialSuccess, Delivered, Unnumbered,
         Effects, Alike;
    ghost var c0, mySeq: I32 := state.Value(), state.seqNo + 1;
    ghost var before, wire := Mine(p, state.wire), state.wire;
    Nothing();
    Unit(before);
    Unit(wire);
    state.DeregisterConn(p.childId);
    ghost var c1 := state.Value();
    OwnChange(c0, c1, {p.childId}, {mySeq});
    OursAnyNumber(p, NO_START, false);
    FailedUnnumbered(p.childId, p.dialSeq, NO_START);
    var m := EmitOurs(state, p, BuildDialFailed(p.childId, p.dialSeq, NO_START, -1), env.closingOk);
    Interleave(state, env.duringClosing, p, Some(mySeq));
    AlikeEffects(c1, c0, env.duringClosing, {p.childId}, {mySeq});
    Record(before, [], [], m, env.closingOk);
    Record(wire, [], [], m, env.closingOk);
    return [m], [env.closingOk];
  }

  /** What others run once DialSuccess is out. */
  function RanAfter(p: PendingAccept, env: Env): seq<Other> {
    if p.routerProvided then RanHeader(p, env)
    else if env.Started() then RanAwaiting(env) + RanHeader(p, env)
    else RanAwaiting(env)
  }

  function RanHeader(p: PendingAccept, env: Env): seq<Other> {
    if p.streamHeader.Some? then env.duringHeader else []
  }

  /** What follows an accepted DialSuccess: the start reply of a generated id, then the stream header. */
  method CompleteAnnounced(state: ChannelState, p: PendingAccept, replySeq: I32, env: Env)
    returns (r: Result<(), AcceptError>, sent: seq<Message>, went: seq<bool>)
    requires -0x8000_0000 <= state.seqNo
    requires state.seqNo + |env.duringStart| + |env.duringClosing| + |env.duringHeader| + 2 < 0x7FFF_FFFF
    requires Polite(env, p, replySeq) && (p.routerProvided ==> replySeq !in state.waiters)
    modifies state
    ensures |sent| == |went| && Mine(p, state.wire) == Mine(p, old(state.wire)) + Delivered(sent, went)
    ensures !p.routerProvided && !env.Started() ==>
              && r == Err(AcceptStartFailed)
              && went == [env.closingOk] && Unnumbered(sent) ==
                 [if env.start.Answered? then BuildStateClosed(p.childId)
                  else BuildDialFailed(p.childId, p.dialSeq, NO_START, -1)]
    ensures p.routerProvided || env.Started() ==>
              && r == (if p.streamHeader.Some? && !env.headerOk then Err(Channel) else Ok(()))
              && Unnumbered(sent) == HeaderOf(p) && went == if p.streamHeader.Some? then [env.headerOk] else []
    ensures replySeq !in state.waiters && (r.Err? ==> p.childId !in state.conns)
    ensures Quiet(env) ==> state.wire == old(state.wire) + Delivered(sent, went)
    ensures Alike(state.Value(), Effects(old(state.Value()), RanAfter(p, env)),
                  if r.Ok? then {} else {p.childId}, {replySeq})
  {
    hide Mine, Ours, KeepsOff, BuildDialFailed, BuildStateClosed, BuildData, BuildDialSuccess, Delivered, Unnumbered,
         Effects, Alike, RanAwaiting;
    if p.routerProvided {
      r, sent, went := SendHeader(state, p, replySeq, env);
      return;
    }
    ghost var c0, before, wire := state.Value(), Mine(p, state.wire), state.wire;
    Nothing();
    Unit(before);
    Unit(wire);
    r, sent, went := AwaitStartReply(state, p, replySeq, env);
    if r.Err? {
      return;
    }
    ghost var c1 := state.Value();
    r, sent, went := SendHeader(state, p, replySeq, env);
    AlikeChain(c0, c1, state.Value(), RanAwaiting(env), RanHeader(p, env),
               if r.Ok? then {} else {p.childId}, {replySeq});
  }

  lemma RanCases(p: PendingAccept, closed: bool, env: Env)
    ensures TooLate(p, closed) ==> Ran(p, closed, env) == env.duringClosing
    ensures !TooLate(p, closed) && !env.successOk ==> Ran(p, closed, env) == env.duringSuccess
    ensures !TooLate(p, closed) && env.successOk ==> Ran(p, closed, env) == env.duringSuccess + RanAfter(p, env)
  {
  }

  /** Alike but for places known to be vacant: equal once these are vacated. */
  lemma Settled(a: Chan, b: Chan, id: U32, sequence: I32, ok: bool)
    requires Alike(a, b, if ok then {} else {id}, {sequence})
    requires sequence !in a.waiters && (!ok ==> id !in a.conns)
    ensures a == b.(conns := if ok then b.conns else b.conns - {id}, waiters := b.waiters - {sequence})
  {
    assert a.waiters - {sequence} == a.waiters;
    if ok {
      assert a.conns - {} == a.conns && b.conns - {} == b.conns;
    } else {
      assert a.conns - {id} == a.conns;
    }
  }

  /** The last part: the stream header of an encrypted child. */
  method SendHeader(state: ChannelState, p: PendingAccept, ghost replySeq: I32, env: Env)
    returns (r: Result<(), AcceptError>, sent: seq<Message>, went: seq<bool>)
    requires Polite(env, p, replySeq)
    requires -0x8000_0000 <= state.seqNo && state.seqNo + |env.duringHeader| + 1 < 0x7FFF_FFFF
    modifies state
    ensures r == if p.streamHeader.Some? && !env.headerOk then Err(Channel) else Ok(())
    ensures Unnumbered(sent) == HeaderOf(p) && went == if p.streamHeader.Some? then [env.headerOk] else []
    ensures |sent| == |went| && Mine(p, state.wire) == Mine(p, old(state.wire)) + Delivered(sent, went)
    ensures r.Err? ==> p.childId !in state.conns
    ensures replySeq !in old(state.waiters) ==> replySeq !in state.waiters
    ensures Quiet(env) ==> state.wire == old(state.wire) + Delivered(sent, went)
    ensures Alike(state.Value(), Effects(old(state.Value()), RanHeader(p, env)),
                  if r.Ok? then {} else {p.childId}, {replySeq})
  {
    Nothing();
    hide Mine, Ours, KeepsOff, BuildDialFailed, BuildStateClosed, BuildData, Delivered, Unnumbered, Effects, Alike;
    ghost var c0 := state.Value();
    NoEffect(c0);
    ghost var before, wire := Mine(p, state.wire), state.wire;
    Unit(before);
    Unit(wire);
    if p.streamHeader.None? {
      OwnChange(c0, c0, {}, {replySeq});
      return Ok(()), [], [];
    }
    OursAnyNumber(p, p.streamHeader.value, true);
    DataUnnumbered(p.childId, p.streamHeader.value);
    var hdr := EmitOurs(state, p, BuildData(p.childId, p.streamHeader.value, true), env.headerOk);
    Record(before, [], [], hdr, env.headerOk);
    Record(wire, [], [], hdr, env.headerOk);
    Interleave(state, env.duringHeader, p, Some(replySeq));
    ghost var c1 := state.Value();
    OwnChange(c1, c1, {}, {replySeq});
    if !env.headerOk {
      state.DeregisterConn(p.childId);
      AlikeWithout(c1, c1, p.childId, {replySeq});
    }
    return if env.headerOk then Ok(()) else Err(Channel), [hdr], [env.headerOk];
  }

  lemma NoEffect(c: Chan)
    ensures Effects(c, []) == c
  {
  }

  lemma {:induction false} DeliveredAppend(sent: seq<Message>, went: seq<bool>, more: seq<Message>, moreWent: seq<bool>)
    requires |sent| == |went| && |more| == |moreWent|
    ensures Delivered(sent + more, went + moreWent) == Delivered(sent, went) + Delivered(more, moreWent)
  {
    if more == [] {
      Unit(sent);
      Unit(went);
      Unit(Delivered(sent, went));
    } else {
      var n := |more| - 1;
      DeliveredAppend(sent, went, more[..n], moreWent[..n]);
      assert (sent + more)[..|sent| + n] == sent + more[..n] && (went + moreWent)[..|sent| + n] == went + moreWent[..n];
      Assoc(Delivered(sent, went), Delivered(more[..n], moreWent[..n]), if moreWent[n] then [more[n]] else []);
    }
  }

  lemma RecordAll(before: seq<Message>, sent: seq<Message>, went: seq<bool>, more: seq<Message>, moreWent: seq<bool>)
    requires |sent| == |went| && |more| == |moreWent|
    ensures before + Delivered(sent, went) + Delivered(more, moreWent) ==
            before + Delivered(sent + more, went + moreWent)
    ensures Unnumbered(sent + more) == Unnumbered(sent) + Unnumbered(more)
  {
    DeliveredAppend(sent, went, more, moreWent);
    Assoc(before, Delivered(sent, went), Delivered(more, moreWent));
    assert Unnumbered(sent + more) == Unnumbered(sent) + Unnumbered(more);
  }

  lemma Nothing()
    ensures Delivered([], []) == [] && Unnumbered([]) == []
  {
  }

  /** Adding one frame to the record. */
  lemma Record(before: seq<Message>, sent: seq<Message>, went: seq<bool>, m: Message, ok: bool)
    requires |sent| == |went|
    ensures before + Delivered(sent + [m], went + [ok]) == before + Delivered(sent, went) + if ok then [m] else []
    ensures Unnumbered(sent + [m]) == Unnumbered(sent) + [m.(sequence := -1)]
    ensures [] + [m] == [m] && [] + [ok] == [ok]
  {
    DeliveredSnoc(sent, went, m, ok);
    Assoc(before, Delivered(sent, went), if ok then [m] else []);
    UnnumberedSnoc(sent, m);
  }

  /** The first half: the waiter, for a generated id, and DialSuccess. */
  method AnnounceSuccess(state: ChannelState, p: PendingAccept, env: Env)
    returns (replySeq: I32, sent: seq<Message>, went: seq<bool>)
    requires -0x8000_0000 <= state.seqNo && state.seqNo + |env.duringSuccess| + 1 < 0x7FFF_FFFF
    requires forall w :: w in state.waiters ==> w <= state.seqNo
    requires Polite(env, p, state.seqNo + 1)
    modifies state
    ensures replySeq == old(state.seqNo) + 1
    ensures |sent| == |went| && Unnumbered(sent) == [DialSuccessOf(p)] && went == [env.successOk]
    ensures Mine(p, state.wire) == Mine(p, old(state.wire)) + Delivered(sent, went)
    ensures old(state.seqNo) < state.seqNo <= old(state.seqNo) + |env.duringSuccess| + 1
    ensures !env.successOk || p.routerProvided ==> old(state.seqNo) + 1 !in state.waiters
    ensures !env.successOk ==> p.childId !in state.conns
    ensures Quiet(env) ==> state.wire == old(state.wire) + Delivered(sent, went)
    ensures Alike(state.Value(), Effects(old(state.Value()), env.duringSuccess),
                  if env.successOk then {} else {p.childId}, {old(state.seqNo) + 1})
  {
    OursAnyNumber(p, [], false);
    Nothing();
    hide Mine, Ours, KeepsOff, BuildDialSuccess, Delivered, Unnumbered, Effects, Alike;
    ghost var c0 := state.Value();
    ghost var before, wire := Mine(p, state.wire), state.wire;
    replySeq := state.seqNo + 1;
    if !p.routerProvided {
      state.waiters := state.waiters + {replySeq};
    }
    ghost var c1 := state.Value();
    OwnChange(c0, c1, {}, {replySeq});
    SuccessUnnumbered(p);
    var reply := EmitOurs(state, p, DialSuccessOf(p), env.successOk);
    Record(before, [], [], reply, env.successOk);
    Record(wire, [], [], reply, env.successOk);
    Unit(before);
    Unit(wire);
    sent, went := [reply], [env.successOk];
    Interleave(state, env.duringSuccess, p, Some(replySeq));
    ghost var c2 := state.Value();
    AlikeEffects(c1, c0, env.duringSuccess, {}, {replySeq});
    if !env.successOk {
      if !p.routerProvided {
        state.waiters := state.waiters - {replySeq};
      }
      OwnChange(c2, state.Value(), {}, {replySeq});
      AlikeTransitive(state.Value(), c2, Effects(c0, env.duringSuccess), {}, {}, {replySeq});
      AlikeWithout(state.Value(), Effects(c0, env.duringSuccess), p.childId, {replySeq});
      state.DeregisterConn(p.childId);
    }
  }

  lemma SuccessUnnumbered(p: PendingAccept)
    ensures DialSuccessOf(p).sequence == -1
  {
  }

  /** `complete_failed`: DialFailed for the bind, StateClosed for the child, deregistration, in that order. */
  method CompleteFailed(state: ChannelState, p: PendingAccept, reason: Bytes, failedOk: bool, closedOk: bool,
                        others: seq<Other>)
    returns (sent: seq<Message>)
    requires -0x8000_0000 <= state.seqNo && state.seqNo + |others| + 2 < 0x7FFF_FFFF
    requires KeepsOff(others, p, None)
    modifies state
    ensures |sent| == 2
    ensures Unnumbered(sent) == [BuildDialFailed(p.bindConnId, p.dialSeq, reason, -1), BuildStateClosed(p.childId)]
    ensures Mine(p, state.wire) == Mine(p, old(state.wire)) + Delivered(sent, [failedOk, closedOk])
    ensures p.childId !in state.conns
    ensures others == [] ==> state.wire == old(state.wire) + Delivered(sent, [failedOk, closedOk])
    ensures state.Value() == Effects(old(state.Value()), others).WithoutConn(p.childId)
  {
    OursAnyNumber(p, reason, false);
    Nothing();
    hide Mine, Ours, KeepsOff, BuildDialFailed, BuildStateClosed, BuildData, Delivered, Unnumbered;
    ghost var before, wire := Mine(p, state.wire), state.wire;
    Unit(before);
    Unit(wire);
    FailedUnnumbered(p.bindConnId, p.dialSeq, reason);
    ClosedUnnumbered(p.childId);
    var failed := EmitOurs(state, p, BuildDialFailed(p.bindConnId, p.dialSeq, reason, -1), failedOk);
    Record(before, [], [], failed, failedOk);
    Record(wire, [], [], failed, failedOk);
    Interleave(state, others, p, None);
    var closed := EmitOurs(state, p, BuildStateClosed(p.childId), closedOk);
    Record(before, [failed], [failedOk], closed, closedOk);
    Record(wire, [failed], [failedOk], closed, closedOk);
    assert [failed] + [closed] == [failed, closed] && [failedOk] + [closedOk] == [failedOk, closedOk];
    state.DeregisterConn(p.childId);
    sent := [failed, closed];
  }

  // ----- taking dials off the bind queue ------------------------------------------------------------

  /** "invalid token" */
  const INVALID_TOKEN: Bytes := [
    0x69, 0x6e, 0x76, 0x61, 0x6c, 0x69, 0x64, 0x20, 0x74, 0x6f, 0x6b, 0x65,
    0x6e]

  /** "failed to establish crypto session" */
  const CRYPTO_FAILED: Bytes := [
    0x66, 0x61, 0x69, 0x6c, 0x65, 0x64, 0x20, 0x74, 0x6f, 0x20, 0x65, 0x73,
    0x74, 0x61, 0x62, 0x6c, 0x69, 0x73, 0x68, 0x20, 0x63, 0x72, 0x79, 0x70,
    0x74, 0x6f, 0x20, 0x73, 0x65, 0x73, 0x73, 0x69, 0x6f, 0x6e]

  datatype Host = Host(bindConnId: U32, token: Bytes, encrypted: bool, exchange: Bytes -> Option<Bytes>)

  datatype CryptoSetup = Plaintext | Encrypted(streamHeader: Bytes) | Refused

  /**
   `server_crypto_setup`: plaintext when the service is or the dialer sent no key; otherwise the method must be
   libsodium, the key 32 bytes long and the exchange (here `host.exchange`) must succeed.
   */
  function ServerCryptoSetup(host: Host, dial: Message): CryptoSetup {
    if !host.encrypted || HDR_PUBLIC_KEY !in dial.headers then Plaintext
    else
      var method_ := if HDR_CRYPTO_METHOD in dial.headers && dial.headers[HDR_CRYPTO_METHOD] != []
                     then dial.headers[HDR_CRYPTO_METHOD][0] else CRYPTO_METHOD_LIBSODIUM;
      if method_ != CRYPTO_METHOD_LIBSODIUM || |dial.headers[HDR_PUBLIC_KEY]| != 32 then Refused
      else match host.exchange(dial.headers[HDR_PUBLIC_KEY])
        case None => Refused
        case Some(h) => Encrypted(h)
  }

  /** A dial for this listener, right token and all. */
  predicate IsOurDial(host: Host, m: Message) {
    m.contentType == 60787 && m.body == host.token
  }

  /** Without encryption on both sides a dial is served in the clear. */
  lemma PlainDial(host: Host, m: Message, p: PendingAccept)
    requires IsOurDial(host, m) && (!host.encrypted || 1003 !in m.headers)
    ensures Judge(host, m).Accepted? && (Answers(host, m, p) ==> p.streamHeader == None)
  {
    hide HeaderU32;
  }

  /**
   With a key on both sides the exchange decides: a dial it accepts is served encrypted, under the stream header it
   gave; one with another method, a key of another length, or a failed exchange is refused.
   */
  lemma EncryptedDial(host: Host, m: Message, p: PendingAccept)
    requires IsOurDial(host, m) && host.encrypted && 1003 in m.headers
    ensures 1009 in m.headers && m.headers[1009] != [] && m.headers[1009][0] != 0 ==>
              Judge(host, m) == Rejected(CRYPTO_FAILED)
    ensures |m.headers[1003]| != 32 ==> Judge(host, m) == Rejected(CRYPTO_FAILED)
    ensures host.exchange(m.headers[1003]).None? ==> Judge(host, m) == Rejected(CRYPTO_FAILED)
    ensures !(1009 in m.headers && m.headers[1009] != [] && m.headers[1009][0] != 0)
            && |m.headers[1003]| == 32 && host.exchange(m.headers[1003]).Some? ==>
              && Judge(host, m).Accepted?
              && (Answers(host, m, p) ==> p.streamHeader == host.exchange(m.headers[1003]))
  {
    hide HeaderU32;
  }

  /** The rest of the queue: a StateClosed ends it, a foreign token is refused, and anything but a dial is skipped. */
  lemma OtherFrames(host: Host, m: Message)
    ensures m.contentType == 60785 ==> Judge(host, m) == Ends
    ensures m.contentType != 60785 && m.contentType != 60787 ==> Judge(host, m) == Ignored
    ensures m.contentType == 60787 && m.body != host.token ==> Judge(host, m) == Rejected(INVALID_TOKEN)
  {
  }

  /** What the accept loop makes of one queued frame. */
  datatype Verdict = Ends | Ignored | Rejected(reason: Bytes) | Accepted

  function Judge(host: Host, m: Message): Verdict {
    if m.contentType == CT_STATE_CLOSED then Ends
    else if m.contentType != CT_DIAL then Ignored
    else if m.body != host.token then Rejected(INVALID_TOKEN)
    else if ServerCryptoSetup(host, m).Refused? then Rejected(CRYPTO_FAILED)
    else Accepted
  }

  /** One DialFailed for the bind per rejected dial, in queue order; nothing for the rest. */
  function Rejections(host: Host, queue: seq<Message>): seq<Message> {
    if queue == [] then []
    else
      var before := Rejections(host, queue[..|queue| - 1]);
      var m := queue[|queue| - 1];
      match Judge(host, m)
      case Rejected(reason) => before + [BuildDialFailed(host.bindConnId, m.sequence, reason, -1)]
      case _ => before
  }

  predicate PassedOver(host: Host, queue: seq<Message>) {
    forall i :: 0 <= i < |queue| ==> Judge(host, queue[i]).Ignored? || Judge(host, queue[i]).Rejected?
  }

  /** The pending accept carries what the dial said. */
  predicate Answers(host: Host, dial: Message, p: PendingAccept) {
    && p.bindConnId == host.bindConnId && p.dialSeq == dial.sequence
    && p.routerProvided == HeaderU32(dial, HDR_ROUTER_PROVIDED_CONN_ID).Some?
    && (p.routerProvided ==> Some(p.childId) == HeaderU32(dial, HDR_ROUTER_PROVIDED_CONN_ID))
    && p.streamHeader == (match ServerCryptoSetup(host, dial) case Encrypted(h) => Some(h) case _ => None)
  }

  /** Dial by dial: exactly the rejected ones are answered, each to its own sequence number with its own reason. */
  lemma {:induction false} RejectionsAppend(host: Host, xs: seq<Message>, ys: seq<Message>)
    ensures Rejections(host, xs + ys) == Rejections(host, xs) + Rejections(host, ys)
  {
    hide Judge, BuildDialFailed;
    if ys == [] {
      Unit(xs);
      Unit(Rejections(host, xs));
    } else {
      var n := |ys| - 1;
      RejectionsAppend(host, xs, ys[..n]);
      assert (xs + ys)[..|xs + ys| - 1] == xs + ys[..n] && (xs + ys)[|xs + ys| - 1] == ys[n];
      assert Rejections(host, xs + ys)
          == Rejections(host, xs) + Rejections(host, ys[..n]) + Rejections(host, [ys[n]]) by {
        RejectionOf(host, ys[n]);
        Unit(Rejections(host, xs + ys[..n]));
      }
      RejectionOf(host, ys[n]);
      Unit(Rejections(host, ys[..n]));
      Assoc(Rejections(host, xs), Rejections(host, ys[..n]), Rejections(host, [ys[n]]));
    }
  }

  lemma RejectionOf(host: Host, m: Message)
    ensures Rejections(host, [m]) ==
            match Judge(host, m)
            case Rejected(reason) => [BuildDialFailed(host.bindConnId, m.sequence, reason, -1)]
            case _ => []
  {
    hide Judge, BuildDialFailed;
    assert [m][..0] == [];
  }

  /** The flags of the rejected dials' answers, in the same order. */
  function RejectFlags(host: Host, queue: seq<Message>, oks: seq<bool>): seq<bool>
    requires |oks| == |queue|
  {
    if queue == [] then []
    else
      var n := |queue| - 1;
      RejectFlags(host, queue[..n], oks[..n]) + (if Judge(host, queue[n]).Rejected? then [oks[n]] else [])
  }

  /**
   The ids of a queue that end up unregistered: those the router provided with dials whose crypto was refused, for the
   child is filed before its crypto is set up.
   */
  function Forgotten(host: Host, queue: seq<Message>): set<U32> {
    if queue == [] then {}
    else Forgotten(host, queue[..|queue| - 1]) + ForgottenBy(host, queue[|queue| - 1])
  }

  function ForgottenBy(host: Host, m: Message): set<U32> {
    var provided := HeaderU32(m, HDR_ROUTER_PROVIDED_CONN_ID);
    if Judge(host, m) == Rejected(CRYPTO_FAILED) && m.body == host.token && provided.Some? then {provided.value} else {}
  }

  /** A dial of ours whose crypto is refused although the router filed it under this id. */
  predicate RefusedUnder(host: Host, m: Message, id: U32) {
    && m.contentType == CT_DIAL && m.body == host.token && ServerCryptoSetup(host, m).Refused?
    && HeaderU32(m, HDR_ROUTER_PROVIDED_CONN_ID) == Some(id)
  }

  /** Exactly which connections a queue costs: those whose id the router provides again with a refused dial. */
  lemma {:induction false} ForgottenIff(host: Host, queue: seq<Message>, id: U32)
    ensures id in Forgotten(host, queue) <==> exists i :: 0 <= i < |queue| && RefusedUnder(host, queue[i], id)
  {
    hide HeaderU32, ServerCryptoSetup;
    if queue == [] {
    } else {
      var front, last := queue[..|queue| - 1], queue[|queue| - 1];
      ForgottenIff(host, front, id);
      assert forall i :: 0 <= i < |front| ==> front[i] == queue[i];
      if id in Forgotten(host, front) {
        var i :| 0 <= i < |front| && RefusedUnder(host, front[i], id);
        assert RefusedUnder(host, queue[i], id);
      }
    }
  }

  /** Such a queue: one dial with an empty key, under an id that may well be filed. */
  lemma RefusedDialForgets(host: Host, id: U32, sequence: I32)
    requires host.encrypted
    ensures var dial := Message(CT_DIAL, sequence, map[HDR_PUBLIC_KEY := [], HDR_ROUTER_PROVIDED_CONN_ID := Le(id)],
                                host.token);
            Judge(host, dial) == Rejected(CRYPTO_FAILED) && Forgotten(host, [dial]) == {id}
  {
    var dial := Message(CT_DIAL, sequence, map[HDR_PUBLIC_KEY := [], HDR_ROUTER_PROVIDED_CONN_ID := Le(id)],
                        host.token);
    FromLeLe(id);
    hide Le, FromLe;
    assert [dial][..0] == [];
  }

  /** What the loop has done with the queue so far. */
  ghost predicate Progress(host: Host, queue: seq<Message>, oks: seq<bool>, taken: nat, sent: seq<Message>)
    requires |oks| == |queue|
  {
    && taken <= |queue| && PassedOver(host, queue[..taken])
    && Unnumbered(sent) == Rejections(host, queue[..taken])
    && |RejectFlags(host, queue[..taken], oks[..taken])| == |sent|
  }

  lemma ProgressInit(host: Host, queue: seq<Message>, oks: seq<bool>)
    requires |oks| == |queue|
    ensures Progress(host, queue, oks, 0, [])
    ensures Delivered([], RejectFlags(host, queue[..0], oks[..0])) == [] && Forgotten(host, queue[..0]) == {}
  {
  }

  /** The queue taken so far, and what that has made of the wire and the connections. */
  ghost predicate PassedBy(host: Host, queue: seq<Message>, oks: seq<bool>, taken: nat, sent: seq<Message>,
                           wire: seq<Message>, wire': seq<Message>, conns: map<U32, Sender>, conns': map<U32, Sender>)
    requires |oks| == |queue|
  {
    && Progress(host, queue, oks, taken, sent)
    && wire' == wire + Delivered(sent, RejectFlags(host, queue[..taken], oks[..taken]))
    && conns' == conns - Forgotten(host, queue[..taken])
  }

  lemma PassedInit(host: Host, queue: seq<Message>, oks: seq<bool>, wire: seq<Message>, conns: map<U32, Sender>)
    requires |oks| == |queue|
    ensures PassedBy(host, queue, oks, 0, [], wire, wire, conns, conns)
  {
    ProgressInit(host, queue, oks);
    Unit(wire);
  }

  lemma PassedStep(host: Host, queue: seq<Message>, oks: seq<bool>, taken: nat, sent: seq<Message>,
                   wire: seq<Message>, wire': seq<Message>, conns: map<U32, Sender>, conns': map<U32, Sender>,
                   answer: seq<Message>)
    requires |oks| == |queue| && taken < |queue|
    requires PassedBy(host, queue, oks, taken, sent, wire, wire', conns, conns')
    requires Judge(host, queue[taken]).Ignored? || Judge(host, queue[taken]).Rejected?
    requires IsAnswer(host, queue[taken], answer)
    ensures PassedBy(host, queue, oks, taken + 1, sent + answer, wire, wire' + if oks[taken] then answer else [],
                     conns, conns' - ForgottenBy(host, queue[taken]))
  {
    hide Progress, Judge, IsAnswer, ForgottenBy, Forgotten, RejectFlags, Delivered;
    ProgressBounds(host, queue, oks, taken, sent);
    ProgressStep(host, queue, oks, taken, sent, answer);
    ProgressBounds(host, queue, oks, taken + 1, sent + answer);
    Assoc(wire, Delivered(sent, RejectFlags(host, queue[..taken], oks[..taken])), if oks[taken] then answer else []);
  }

  lemma PassedBounds(host: Host, queue: seq<Message>, oks: seq<bool>, taken: nat, sent: seq<Message>,
                     wire: seq<Message>, wire': seq<Message>, conns: map<U32, Sender>, conns': map<U32, Sender>)
    requires |oks| == |queue| && PassedBy(host, queue, oks, taken, sent, wire, wire', conns, conns')
    ensures taken <= |queue| && conns'.Keys <= conns.Keys && conns' == conns - Forgotten(host, queue[..taken])
  {
  }

  /** The frames one verdict answers with. */
  predicate IsAnswer(host: Host, m: Message, answer: seq<Message>) {
    match Judge(host, m)
    case Rejected(reason) => Unnumbered(answer) == [BuildDialFailed(host.bindConnId, m.sequence, reason, -1)]
    case _ => answer == []
  }

  lemma ProgressStep(host: Host, queue: seq<Message>, oks: seq<bool>, taken: nat, sent: seq<Message>,
                     answer: seq<Message>)
    requires |oks| == |queue| && taken < |queue| && Progress(host, queue, oks, taken, sent)
    requires Judge(host, queue[taken]).Ignored? || Judge(host, queue[taken]).Rejected?
    requires IsAnswer(host, queue[taken], answer)
    ensures Progress(host, queue, oks, taken + 1, sent + answer)
    ensures Delivered(sent + answer, RejectFlags(host, queue[..taken + 1], oks[..taken + 1]))
         == Delivered(sent, RejectFlags(host, queue[..taken], oks[..taken])) + if oks[taken] then answer else []
    ensures Forgotten(host, queue[..taken + 1]) == Forgotten(host, queue[..taken]) + ForgottenBy(host, queue[taken])
  {
    hide Judge, Unnumbered, Delivered, BuildDialFailed, ForgottenBy;
    var flags := RejectFlags(host, queue[..taken], oks[..taken]);
    var more, moreOks := queue[..taken + 1], oks[..taken + 1];
    assert more[..taken] == queue[..taken] && moreOks[..taken] == oks[..taken];
    assert more[taken] == queue[taken] && moreOks[taken] == oks[taken] && |more| == taken + 1;
    assert forall i :: 0 <= i < taken ==> more[i] == queue[..taken][i];
    if Judge(host, queue[taken]).Ignored? {
      Unit(flags);
      Unit(sent);
      Unit(Delivered(sent, flags));
    } else {
      UnnumberedLength(answer);
      var f := answer[0];
      assert answer == [f] && [] + [f] == [f];
      Nothing();
      UnnumberedSnoc([], f);
      UnnumberedSnoc(sent, f);
      DeliveredSnoc(sent, flags, f, oks[taken]);
      assert RejectFlags(host, more, moreOks) == flags + [oks[taken]];
    }
  }

  lemma ProgressBounds(host: Host, queue: seq<Message>, oks: seq<bool>, taken: nat, sent: seq<Message>)
    requires |oks| == |queue| && Progress(host, queue, oks, taken, sent)
    ensures taken <= |queue| && |RejectFlags(host, queue[..taken], oks[..taken])| == |sent|
  {
  }

  lemma ForgetsProvided(host: Host, m: Message)
    requires m.contentType == CT_DIAL && m.body == host.token && ServerCryptoSetup(host, m).Refused?
    ensures var provided := HeaderU32(m, HDR_ROUTER_PROVIDED_CONN_ID);
            ForgottenBy(host, m) == if provided.Some? then {provided.value} else {}
  {
    JudgeCases(host, m);
    hide Judge, ServerCryptoSetup, HeaderU32;
  }

  lemma UnnumberedLength(ms: seq<Message>)
    ensures |Unnumbered(ms)| == |ms|
  {
  }

  /** Files a dial's child: under the id the router provided, or a free one of our own. */
  method FileChild(state: ChannelState, m: Message, tx: Sender, ghost spare: U32) returns (child: U32, provided: bool)
    requires 0 < spare < MAX_CONN_ID && spare !in state.conns && spare !in state.binds
    modifies state`conns, state`nextConnId
    ensures provided == HeaderU32(m, HDR_ROUTER_PROVIDED_CONN_ID).Some?
    ensures provided ==> Some(child) == HeaderU32(m, HDR_ROUTER_PROVIDED_CONN_ID)
    ensures !provided ==> child < MAX_CONN_ID && child !in old(state.conns) && child !in state.binds
    ensures state.conns == if state.closed then old(state.conns) else old(state.conns)[child := tx]
  {
    var header := HeaderU32(m, HDR_ROUTER_PROVIDED_CONN_ID);
    provided := header.Some?;
    if provided {
      child := header.value;
    } else {
      FreeIdSuffices(state.conns.Keys + state.binds.Keys, MIN_CONN_ID, MAX_CONN_ID, state.nextConnId, spare);
      child := state.NextConnId();
    }
    state.RegisterConn(child, tx);
  }

  lemma JudgeCases(host: Host, m: Message)
    ensures m.contentType == CT_STATE_CLOSED ==> Judge(host, m).Ends?
    ensures m.contentType != CT_STATE_CLOSED && m.contentType != CT_DIAL ==> Judge(host, m).Ignored?
    ensures m.contentType == CT_DIAL && m.body != host.token ==>
              Judge(host, m) == Rejected(INVALID_TOKEN) && ForgottenBy(host, m) == {}
    ensures m.contentType == CT_DIAL && m.body == host.token && ServerCryptoSetup(host, m).Refused? ==>
              Judge(host, m) == Rejected(CRYPTO_FAILED)
    ensures m.contentType == CT_DIAL && m.body == host.token && !ServerCryptoSetup(host, m).Refused? ==>
              Judge(host, m).Accepted?
    ensures !Judge(host, m).Rejected? ==> ForgottenBy(host, m) == {}
  {
    hide ServerCryptoSetup;
  }

  /** One frame off the queue: judged, answered if it is a bad dial, and filed if it is a good one. */
  method Consider(state: ChannelState, host: Host, m: Message, tx: Sender, ok: bool, ghost spare: U32)
    returns (verdict: Verdict, pending: Option<PendingAccept>, answer: seq<Message>)
    requires -0x8000_0000 <= state.seqNo < 0x7FFF_FFFF
    requires 0 < spare < MAX_CONN_ID && spare !in state.conns && spare !in state.binds
    modifies state`seqNo, state`wire, state`conns, state`nextConnId
    ensures verdict == Judge(host, m) && IsAnswer(host, m, answer)
    ensures state.wire == old(state.wire) + if ok then answer else []
    ensures old(state.seqNo) <= state.seqNo <= old(state.seqNo) + 1
    ensures verdict.Accepted? <==> pending.Some?
    ensures pending.Some? ==> Answers(host, m, pending.value)
    ensures pending.Some? && !pending.value.routerProvided ==>
              Fresh(pending.value.childId, old(state.conns), state.binds)
    ensures state.conns == if pending.Some? && !state.closed then old(state.conns)[pending.value.childId := tx]
                           else old(state.conns) - ForgottenBy(host, m)
  {
    JudgeCases(host, m);
    Unit(state.wire);
    hide Judge, ForgottenBy, ServerCryptoSetup, BuildDialFailed, HeaderU32, Unnumbered;
    if m.contentType == CT_STATE_CLOSED {
      return Ends, None, [];
    }
    if m.contentType != CT_DIAL {
      return Ignored, None, [];
    }
    var reason := INVALID_TOKEN;
    if m.body == host.token {
      var child, provided := FileChild(state, m, tx, spare);
      var setup := ServerCryptoSetup(host, m);
      if !setup.Refused? {
        var header := match setup case Encrypted(h) => Some(h) case _ => None;
        return Accepted, Some(PendingAccept(host.bindConnId, child, provided, m.sequence, header)), [];
      }
      state.DeregisterConn(child);
      reason := CRYPTO_FAILED;
      ForgetsProvided(host, m);
    }
    FailedUnnumbered(host.bindConnId, m.sequence, reason);
    var f := Emit(state, BuildDialFailed(host.bindConnId, m.sequence, reason, -1), ok);
    UnnumberedSnoc([], f);
    assert [] + [f] == [f];
    Nothing();
    return Rejected(reason), None, [f];
  }

  /**
   `accept_pending` on a queue that will deliver `queue` and then end. A bad dial is answered and passed over; the
   listener ends only with the queue or a StateClosed. The accepted child is filed under the router's id when the
   dial carries a readable one, else under a free id of our own. The wire gains the answers the transport took and
   nothing else; of the other connections only those whose very id the router provided again, with crypto that was
   refused, are gone.
   */
  method AcceptPending(state: ChannelState, host: Host, queue: seq<Message>, tx: Sender, oks: seq<bool>,
                       ghost spare: U32)
    returns (r: Result<PendingAccept, AcceptError>, taken: nat, sent: seq<Message>)
    requires |oks| == |queue|
    requires -0x8000_0000 <= state.seqNo && state.seqNo + |queue| < 0x7FFF_FFFF
    requires 0 < spare < MAX_CONN_ID && spare !in state.conns && spare !in state.binds
    modifies state`seqNo, state`wire, state`conns, state`nextConnId
    ensures taken <= |queue|
    ensures var kept := old(state.conns) - Forgotten(host, queue[..taken]);
            && PassedBy(host, queue, oks, taken, sent, old(state.wire), state.wire, old(state.conns), kept)
            && state.conns == (if r.Ok? && !state.closed then kept[r.value.childId := tx] else kept)
            && (r.Ok? && !r.value.routerProvided ==> Fresh(r.value.childId, kept, state.binds))
    ensures forall i :: 0 <= i < taken ==> Judge(host, queue[i]).Ignored? || Judge(host, queue[i]).Rejected?
    ensures Unnumbered(sent) == Rejections(host, queue[..taken])
    ensures |sent| == |RejectFlags(host, queue[..taken], oks[..taken])|
    ensures state.wire == old(state.wire) + Delivered(sent, RejectFlags(host, queue[..taken], oks[..taken]))
    ensures r.Err? <==> taken == |queue| || Judge(host, queue[taken]).Ends?
    ensures r.Err? ==> r.error == ListenerClosed
    ensures r.Ok? ==> taken < |queue| && Judge(host, queue[taken]).Accepted? && Answers(host, queue[taken], r.value)
  {
    hide *;
    taken, sent := 0, [];
    PassedInit(host, queue, oks, state.wire, state.conns);
    while taken < |queue|
      invariant PassedBy(host, queue, oks, taken, sent, old(state.wire), state.wire, old(state.conns), state.conns)
      invariant taken <= |queue|
      invariant old(state.seqNo) <= state.seqNo <= old(state.seqNo) + taken
    {
      PassedBounds(host, queue, oks, taken, sent, old(state.wire), state.wire, old(state.conns), state.conns);
      ghost var before, conns := state.wire, state.conns;
      var verdict, pending, answer := Consider(state, host, queue[taken], tx, oks[taken], spare);
      if verdict.Ends? || verdict.Accepted? {
        EndsQuietly(host, queue[taken], answer, before, oks[taken]);
        PassedMeans(host, queue, oks, taken, sent, old(state.wire), state.wire, old(state.conns), conns);
        return if verdict.Ends? then Err(ListenerClosed) else Ok(pending.value), taken, sent;
      }
      PassedStep(host, queue, oks, taken, sent, old(state.wire), before, old(state.conns), conns, answer);
      sent, taken := sent + answer, taken + 1;
    }
    PassedBounds(host, queue, oks, taken, sent, old(state.wire), state.wire, old(state.conns), state.conns);
    PassedMeans(host, queue, oks, taken, sent, old(state.wire), state.wire, old(state.conns), state.conns);
    return Err(ListenerClosed), taken, sent;
  }

  lemma PassedMeans(host: Host, queue: seq<Message>, oks: seq<bool>, taken: nat, sent: seq<Message>,
                    wire: seq<Message>, wire': seq<Message>, conns: map<U32, Sender>, conns': map<U32, Sender>)
    requires |oks| == |queue| && PassedBy(host, queue, oks, taken, sent, wire, wire', conns, conns')
    ensures taken <= |queue|
    ensures forall i :: 0 <= i < taken ==> Judge(host, queue[i]).Ignored? || Judge(host, queue[i]).Rejected?
    ensures Unnumbered(sent) == Rejections(host, queue[..taken])
    ensures |sent| == |RejectFlags(host, queue[..taken], oks[..taken])|
    ensures wire' == wire + Delivered(sent, RejectFlags(host, queue[..taken], oks[..taken]))
  {
    hide Judge, Rejections, RejectFlags, Delivered, Unnumbered, Forgotten;
    assert forall i :: 0 <= i < taken ==> queue[..taken][i] == queue[i];
  }

  lemma EndsQuietly(host: Host, m: Message, answer: seq<Message>, wire: seq<Message>, ok: bool)
    requires IsAnswer(host, m, answer) && !Judge(host, m).Rejected?
    ensures wire + (if ok then answer else []) == wire && ForgottenBy(host, m) == {}
  {
    JudgeCases(host, m);
    Unit(wire);
    hide Judge;
  }

  /** An id of our own range that neither table holds. */
  predicate Fresh(id: U32, conns: map<U32, Sender>, binds: map<U32, Sender>) {
    id < MAX_CONN_ID && id !in conns && id !in binds
  }

  lemma UnnumberedSnoc(ms: seq<Message>, m: Message)
    ensures Unnumbered(ms + [m]) == Unnumbered(ms) + [m.(sequence := -1)]
  {
  }
}
