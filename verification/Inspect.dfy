/** Which ids the tables of one channel can hold, over every run of its operations. */
module MuxRuns {
  import opened Base
  import opened ConnIds
  import opened Mux

  /** Router-provided ids start here. */
  const ROUTER_BASE := 0x8000_0000

  datatype Op =
    | Dial(tx: Sender)
    | Bind(tx: Sender)
    | AcceptGenerated(tx: Sender)
    | AcceptProvided(id: U32, tx: Sender)
    | DropConn(id: U32)
    | DropBind(id: U32)
    | Close

  ghost function NextId(c: Chan): int {
    Target(c.InUse(), MIN_CONN_ID, MAX_CONN_ID, Succ(c.nextConnId))
  }

  ghost predicate Enabled(c: Chan, op: Op) {
    match op
    case Dial(_) => NextId(c) < MAX_CONN_ID
    case Bind(_) => NextId(c) < MAX_CONN_ID
    case AcceptGenerated(_) => NextId(c) < MAX_CONN_ID
    case AcceptProvided(id, _) => ROUTER_BASE <= id
    case _ => true
  }

  /** An id from the allocator is inside its range and in neither table. */
  lemma FreshId(c: Chan, op: Op)
    requires Enabled(c, op)
    ensures op.Dial? || op.Bind? || op.AcceptGenerated? ==>
              0 <= NextId(c) < MAX_CONN_ID && NextId(c) !in c.conns && NextId(c) !in c.binds
  {
  }

  /** Allocation and registration are one step. */
  ghost function Apply(c: Chan, op: Op): (c': Chan)
    requires Enabled(c, op)
  {
    FreshId(c, op);
    match op
    case Dial(tx) => c.Allocated(NextId(c)).WithConn(NextId(c), tx)
    case Bind(tx) => c.Allocated(NextId(c)).WithBind(NextId(c), tx)
    case AcceptGenerated(tx) => c.Allocated(NextId(c)).WithConn(NextId(c), tx)
    case AcceptProvided(id, tx) => c.WithConn(id, tx)
    case DropConn(id) => c.WithoutConn(id)
    case DropBind(id) => c.WithoutBind(id)
    case Close => c.MarkedClosed()
  }

  ghost predicate Disjoint(c: Chan) {
    c.conns.Keys !! c.binds.Keys
  }

  ghost predicate Inv(c: Chan) {
    && Disjoint(c)
    && (forall id :: id in c.binds ==> id < MAX_CONN_ID)
    && (forall id :: id in c.conns ==> id < MAX_CONN_ID || ROUTER_BASE <= id)
  }

  lemma InvStep(c: Chan, op: Op)
    requires Inv(c) && Enabled(c, op)
    ensures Inv(Apply(c, op))
  {
    FreshId(c, op);
  }

  ghost predicate IsRun(run: seq<Chan>, ops: seq<Op>) {
    && |run| == |ops| + 1
    && run[0] == Chan(false, {}, map[], map[], 0)
    && forall i :: 0 <= i < |ops| ==> Enabled(run[i], ops[i]) && run[i + 1] == Apply(run[i], ops[i])
  }

  /** No run of dials, binds, accepts, deregistrations and closes ever files one id in both tables. */
  lemma {:induction false} IdsStayDisjoint(run: seq<Chan>, ops: seq<Op>, i: nat)
    requires IsRun(run, ops) && i < |run|
    ensures Inv(run[i])
  {
    if i == 0 {
    } else {
      IdsStayDisjoint(run, ops, i - 1);
      InvStep(run[i - 1], ops[i - 1]);
    }
  }

  /**
   The router's range is what makes this hold: registering an arbitrary id as a connection keeps the tables
   disjoint exactly when no bind holds it (or the channel is closed).
   */
  lemma ArbitraryIdDisjointIff(c: Chan, id: U32, tx: Sender)
    requires Disjoint(c)
    ensures Disjoint(c.WithConn(id, tx)) <==> (c.closed || id !in c.binds)
  {
    if !c.closed && id in c.binds {
      assert id in c.WithConn(id, tx).conns.Keys * c.binds.Keys;
    }
  }

  /** On an open channel, by id: a dial, bind or accept files one sender, and a drop takes one out. */
  lemma OpsFile(c: Chan, op: Op, id: U32)
    requires Enabled(c, op) && !c.closed
    ensures var c' := Apply(c, op);
            && (op.Dial? || op.AcceptGenerated? ==> c'.conns == c.conns[NextId(c) := op.tx] && c'.binds == c.binds)
            && (op.Bind? ==> c'.binds == c.binds[NextId(c) := op.tx] && c'.conns == c.conns)
            && (op.AcceptProvided? ==> c'.conns == c.conns[op.id := op.tx] && c'.binds == c.binds)
            && (op.DropConn? ==> c'.conns == c.conns - {op.id} && c'.binds == c.binds)
            && (op.DropBind? ==> c'.binds == c.binds - {op.id} && c'.conns == c.conns)
            && (op.Dial? || op.Bind? || op.AcceptGenerated? ==> c'.nextConnId == NextId(c))
  {
  }

  /** A closed channel files nothing any more, over every run. */
  lemma {:induction false} ClosedFilesNothing(run: seq<Chan>, ops: seq<Op>, i: nat, j: nat)
    requires IsRun(run, ops) && i < j < |run| && ops[i] == Close
    ensures run[j].closed && run[j].conns == map[] && run[j].binds == map[]
  {
    ClosedIsEmpty(run, ops, i);
    if j == i + 1 {
    } else {
      ClosedFilesNothing(run, ops, i, j - 1);
      assert run[j] == Apply(run[j - 1], ops[j - 1]);
    }
  }

  lemma {:induction false} ClosedIsEmpty(run: seq<Chan>, ops: seq<Op>, i: nat)
    requires IsRun(run, ops) && i < |run|
    ensures run[i].closed ==> run[i].conns == map[] && run[i].binds == map[]
  {
    if i == 0 {
    } else {
      ClosedIsEmpty(run, ops, i - 1);
      assert run[i] == Apply(run[i - 1], ops[i - 1]);
    }
  }
}

/** The `ConnInspect` responder. */
module Inspect {
  import opened Base
  import opened Codec
  import opened DialWire
  import opened Mux
  import MuxRuns

  const CT_CONN_INSPECT_RESPONSE := 60799
  const HDR_CONN_TYPE := 1022
  const MAX_REFLECTED_HEADER := 255

  datatype ConnType = Invalid | Dial | Bind

  /** `conns` is consulted first, `binds` second. */
  function Classify(c: Chan, id: U32): ConnType {
    if id in c.conns then Dial
    else if id in c.binds then Bind
    else Invalid
  }

  function ConnTypeByte(t: ConnType): Byte {
    match t case Invalid => 0 case Dial => 1 case Bind => 2
  }

  /** In every run the class is decided by the tables alone, whichever is consulted first. */
  lemma ClassificationUnambiguous(run: seq<Chan>, ops: seq<MuxRuns.Op>, i: nat, id: U32)
    requires MuxRuns.IsRun(run, ops) && i < |run|
    ensures Classify(run[i], id) == Dial <==> id in run[i].conns
    ensures Classify(run[i], id) == Bind <==> id in run[i].binds
    ensures Classify(run[i], id) == Bind ==> id < MuxRuns.ROUTER_BASE
  {
    MuxRuns.IdsStayDisjoint(run, ops, i);
    assert run[i].conns.Keys !! run[i].binds.Keys;
  }

  /** The channel's reflection rule on a signed key: bit 7 of its two's complement, and at most 255. */
  predicate Reflects(k: I32) {
    ToUnsigned(k) / 0x80 % 2 == 1 && k <= MAX_REFLECTED_HEADER
  }

  /** Over all 32-bit keys: 128 to 255, and the negative keys whose low byte has its top bit set. */
  lemma ReflectsExactly(k: I32)
    ensures Reflects(k) <==> (128 <= k <= 255 || (k < 0 && k % 0x100 >= 0x80))
  {
    if k < 0 {
      BitSeven((k + 0x1_0000_0000) / 0x100, (k + 0x1_0000_0000) % 0x100);
    } else {
      BitSeven(k / 0x100, k % 0x100);
    }
  }

  lemma BitSeven(q: nat, low: nat)
    requires low < 0x100
    ensures (0x100 * q + low) / 0x80 % 2 == 1 <==> low >= 0x80
  {
    assert (0x100 * q + low) / 0x80 == 2 * q + (if low >= 0x80 then 1 else 0);
  }

  /** The reflection loop: every reflected header of the request on top of the headers already there. */
  method Reflect(own: map<I32, Bytes>, request: map<I32, Bytes>) returns (headers: map<I32, Bytes>)
    ensures forall k :: k in headers <==> k in own || (k in request && Reflects(k))
    ensures forall k :: k in own && !(k in request && Reflects(k)) ==> headers[k] == own[k]
    ensures forall k :: k in request && Reflects(k) ==> headers[k] == request[k]
  {
    hide Reflects;
    headers := own;
    var todo := request.Keys;
    while todo != {}
      invariant todo <= request.Keys
      invariant forall k :: k in headers <==> k in own || (k in request && k !in todo && Reflects(k))
      invariant forall k :: k in own && !(k in request && Reflects(k)) ==> headers[k] == own[k]
      invariant forall k :: k in request && k !in todo && Reflects(k) ==> headers[k] == request[k]
      decreases |todo|
    {
      EmptyOrInhabited(todo);
      var k :| k in todo;
      if Reflects(k) {
        headers := headers[k := request[k]];
      }
      todo := todo - {k};
    }
  }

  lemma OwnAreNotReflected()
    ensures !Reflects(HDR_CONN_ID) && !Reflects(HDR_CONN_TYPE) && !Reflects(HDR_REPLY_FOR)
  {
  }

  /**
   `build_conn_inspect_response`: the computed headers are written first and the reflected ones after, yet no
   request, whatever its keys, can touch the three that matter.
   */
  method BuildConnInspectResponse(connId: U32, connType: ConnType, body: Bytes, request: Message) returns (m: Message)
    ensures m.contentType == CT_CONN_INSPECT_RESPONSE && m.sequence == -1 && m.body == body
    ensures HeaderU32(m, HDR_CONN_ID) == Some(connId)
    ensures HDR_CONN_TYPE in m.headers
    ensures m.headers[HDR_CONN_TYPE] == [match connType case Invalid => 0 case Dial => 1 case Bind => 2]
    ensures HeaderI32(m, HDR_REPLY_FOR) == Some(request.sequence)
    ensures forall k :: k in m.headers <==>
              k in {HDR_CONN_ID, HDR_CONN_TYPE, HDR_REPLY_FOR} || (k in request.headers && Reflects(k))
    ensures forall k :: k in request.headers && Reflects(k) ==> m.headers[k] == request.headers[k]
  {
    OwnAreNotReflected();
    FromLeLe(connId);
    FromLeLe(ToUnsigned(request.sequence));
    hide Le, FromLe, Reflects;
    var own: map<I32, Bytes> :=
      map[HDR_CONN_ID := Le(connId), HDR_CONN_TYPE := [ConnTypeByte(connType)],
          HDR_REPLY_FOR := Le(ToUnsigned(request.sequence))];
    var headers := Reflect(own, request.headers);
    m := Message(CT_CONN_INSPECT_RESPONSE, -1, headers, body);
  }
}
