/** The write half of a connection. */
module WriteHalf {
  import opened Base
  import opened Codec
  import opened DialWire
  import opened Mux
  import opened ReadHalf
  import opened SecretStream

  datatype WriteError = WriteAfterClose | Crypto | Channel | Socket

  /** What becomes of one write: the peer may close first, sealing may fail, and the transport may refuse. */
  datatype Fate = Fate(peerCloses: bool, sealOk: bool, sendOk: bool)

  datatype Writer = Writer(connId: U32, first: bool, sender: Option<Position>) {
    /** The frame a write of `data` puts together: sealed when encrypted, MULTIPART on the first. */
    function Frame(c: Cipher, data: Bytes, sequence: I32): Message {
      var body := match sender case None => data case Some(at) => c.push(at.key, at.header, at.n, data);
      BuildData(connId, body, first).(sequence := sequence)
    }

    function Next(): Writer {
      Writer(connId, false, match sender case None => None case Some(at) => Some(at.Advance()))
    }
  }

  /** The frames of consecutive writes, with whatever sequence numbers the channel hands out. */
  function SentFrames(c: Cipher, w: Writer, chunks: seq<Bytes>, seqs: seq<I32>): (ms: seq<Message>)
    requires |seqs| == |chunks|
    ensures |ms| == |chunks|
    decreases |chunks|
  {
    if chunks == [] then []
    else [w.Frame(c, chunks[0], seqs[0])] + SentFrames(c, w.Next(), chunks[1..], seqs[1..])
  }

  /** The writer after `n` writes. */
  function AfterWrites(w: Writer, n: nat): Writer {
    if n == 0 then w else AfterWrites(w, n - 1).Next()
  }

  function SeqsFrom(first: int, n: nat): (s: seq<I32>)
    requires -0x8000_0000 <= first && first + n <= 0x8000_0000
    ensures |s| == n
  {
    seq(n, i requires 0 <= i < n => first + i)
  }

  class EdgeWriteHalf {
    const connId: U32
    const cipher: Cipher
    const state: ChannelState
    const sentFin: Flag
    var firstWrite: bool
    var sender: Option<Position>

    ghost function Value(): Writer
      reads this
    {
      Writer(connId, firstWrite, sender)
    }

    /** As `EdgeConn::new` builds it: with a sender, the stream header has already gone out as first frame. */
    constructor (connId: U32, cipher: Cipher, state: ChannelState, sentFin: Flag, sender: Option<Position>)
      ensures this.connId == connId && this.cipher == cipher && this.state == state && this.sentFin == sentFin
      ensures Value() == Writer(connId, sender.None?, sender)
    {
      this.connId, this.cipher, this.state, this.sentFin := connId, cipher, state, sentFin;
      this.firstWrite, this.sender := sender.None?, sender;
    }

    /** `write`: refused before anything is sealed or sent once the flag is up; a failed sealing sends nothing. */
    method Write(data: Bytes, sealOk: bool, ok: bool) returns (r: Result<(), WriteError>)
      requires -0x8000_0000 <= state.seqNo < 0x7FFF_FFFF
      modifies this, state`seqNo, state`wire
      ensures sentFin.isSet ==> r == Err(WriteAfterClose)
      ensures !sentFin.isSet && old(sender).Some? && !sealOk ==> r == Err(Crypto)
      ensures r == Err(WriteAfterClose) || r == Err(Crypto) ==>
                Value() == old(Value()) && state.wire == old(state.wire) && state.seqNo == old(state.seqNo)
      ensures !sentFin.isSet && (old(sender).Some? ==> sealOk) ==>
                && r == (if ok then Ok(()) else Err(Channel))
                && Value() == old(Value()).Next()
                && state.seqNo == old(state.seqNo) + 1
                && state.wire == old(state.wire) + (if ok then [old(Value()).Frame(cipher, data, state.seqNo)] else [])
    {
      if sentFin.isSet {
        return Err(WriteAfterClose);
      }
      var body := data;
      if sender.Some? {
        if !sealOk {
          return Err(Crypto);
        }
        var at := sender.value;
        body := cipher.push(at.key, at.header, at.n, data);
        sender := Some(at.Advance());
      }
      var m := BuildData(connId, body, firstWrite);
      firstWrite := false;
      var s := state.NextSeq();
      state.Send(m.(sequence := s), ok);
      return if ok then Ok(()) else Err(Channel);
    }

    /** `close_write`: the compare-and-set lets one FIN through. */
    method CloseWrite(ok: bool) returns (r: Result<(), WriteError>)
      requires -0x8000_0000 <= state.seqNo < 0x7FFF_FFFF
      modifies sentFin, state`seqNo, state`wire
      ensures sentFin.isSet
      ensures old(sentFin.isSet) ==> r == Ok(()) && state.wire == old(state.wire) && state.seqNo == old(state.seqNo)
      ensures !old(sentFin.isSet) ==>
                && r == (if ok then Ok(()) else Err(Channel))
                && state.seqNo == old(state.seqNo) + 1
                && state.wire == old(state.wire) + (if ok then [BuildFin(connId).(sequence := state.seqNo)] else [])
    {
      if sentFin.isSet {
        return Ok(());
      }
      sentFin.isSet := true;
      var s := state.NextSeq();
      state.Send(BuildFin(connId).(sequence := s), ok);
      return if ok then Ok(()) else Err(Channel);
    }

    /** `close`: StateClosed goes out whatever the flag was; a failed write skips the deregistration. */
    method Close(ok: bool) returns (r: Result<(), WriteError>)
      requires -0x8000_0000 <= state.seqNo < 0x7FFF_FFFF
      modifies sentFin, state`seqNo, state`wire, state`conns
      ensures sentFin.isSet
      ensures r == if ok then Ok(()) else Err(Channel)
      ensures state.seqNo == old(state.seqNo) + 1
      ensures state.wire == old(state.wire) + (if ok then [BuildStateClosed(connId).(sequence := state.seqNo)] else [])
      ensures state.conns == if ok then old(state.conns) - {connId} else old(state.conns)
    {
      sentFin.isSet := true;
      var s := state.NextSeq();
      state.Send(BuildStateClosed(connId).(sequence := s), ok);
      if !ok {
        return Err(Channel);
      }
      state.DeregisterConn(connId);
      return Ok(());
    }
  }

  lemma {:induction false} SentFramesSnoc(c: Cipher, w: Writer, chunks: seq<Bytes>, seqs: seq<I32>,
                                          chunk: Bytes, s: I32)
    requires |seqs| == |chunks|
    ensures SentFrames(c, w, chunks + [chunk], seqs + [s])
         == SentFrames(c, w, chunks, seqs) + [AfterWrites(w, |chunks|).Frame(c, chunk, s)]
    decreases |chunks|
  {
    if chunks == [] {
      assert chunks + [chunk] == [chunk] && seqs + [s] == [s];
      assert SentFrames(c, w, [chunk], [s]) == [w.Frame(c, chunk, s)];
    } else {
      HeadTail(chunks, [chunk]);
      HeadTail(seqs, [s]);
      SentFramesSnoc(c, w.Next(), chunks[1..], seqs[1..], chunk, s);
      AfterWritesShift(w, |chunks| - 1);
      Assoc([w.Frame(c, chunks[0], seqs[0])], SentFrames(c, w.Next(), chunks[1..], seqs[1..]),
            [AfterWrites(w, |chunks|).Frame(c, chunk, s)]);
    }
  }

  lemma {:induction false} AfterWritesShift(w: Writer, n: nat)
    ensures AfterWrites(w.Next(), n) == AfterWrites(w, n + 1)
  {
    if n == 0 {
    } else {
      AfterWritesShift(w, n - 1);
    }
  }

  /** Is the flag up by the time of write `i`? */
  predicate Raised(flag: bool, fates: seq<Fate>, i: nat)
    requires i < |fates|
  {
    flag || exists k :: 0 <= k <= i && fates[k].peerCloses
  }

  /** Write `i` goes through: the flag is down, sealing (if any) works and the transport takes the frame. */
  predicate Goes(flag: bool, sealed: bool, fates: seq<Fate>, i: nat)
    requires i < |fates|
  {
    !Raised(flag, fates, i) && (sealed ==> fates[i].sealOk) && fates[i].sendOk
  }

  /** The error of the write that did not. */
  function Refusal(flag: bool, sealed: bool, fates: seq<Fate>, i: nat): WriteError
    requires i < |fates|
  {
    if Raised(flag, fates, i) then WriteAfterClose
    else if sealed && !fates[i].sealOk then Crypto
    else Channel
  }

  /**
   `pump_sock_to_ziti` over the chunks the socket yields before it ends or fails. Copying stops at the first write
   that does not go through, for that write's reason; the frames of the writes before it are on the wire.
   */
  method PumpSockToZiti(half: EdgeWriteHalf, chunks: seq<Bytes>, fates: seq<Fate>, readFails: bool)
    returns (r: Result<(), WriteError>, copied: nat)
    requires |fates| == |chunks|
    requires -0x8000_0000 <= half.state.seqNo && half.state.seqNo + |chunks| < 0x7FFF_FFFF
    modifies half, half.sentFin, half.state`seqNo, half.state`wire
    ensures copied <= |chunks|
    ensures forall i :: 0 <= i < copied ==> Goes(old(half.sentFin.isSet), old(half.sender).Some?, fates, i)
    ensures copied < |chunks| ==>
              && !Goes(old(half.sentFin.isSet), old(half.sender).Some?, fates, copied)
              && r == Err(Refusal(old(half.sentFin.isSet), old(half.sender).Some?, fates, copied))
    ensures copied == |chunks| ==> r == if readFails then Err(Socket) else Ok(())
    ensures half.sentFin.isSet ==
              if copied < |chunks| then Raised(old(half.sentFin.isSet), fates, copied) else old(half.sentFin.isSet)
    ensures half.state.wire == old(half.state.wire)
              + SentFrames(half.cipher, old(half.Value()), chunks[..copied],
                           SeqsFrom(old(half.state.seqNo) + 1, copied))
    ensures old(half.state.seqNo) <= half.state.seqNo <= old(half.state.seqNo) + |chunks|
    ensures copied == |chunks| ==> half.Value() == AfterWrites(old(half.Value()), |chunks|)
  {
    ghost var w, s0, flag := half.Value(), half.state.seqNo + 1, half.sentFin.isSet;
    NoneSent(half.cipher, w, chunks, s0, half.state.wire);
    hide SentFrames, AfterWrites, SeqsFrom, Raised;
    copied := 0;
    r := Ok(());
    while copied < |chunks|
      invariant copied <= |chunks| && r == Ok(())
      invariant half.Value() == AfterWrites(w, copied) && half.sender.Some? == w.sender.Some?
      invariant half.sentFin.isSet == flag && (copied > 0 ==> !flag)
      invariant half.state.seqNo == s0 - 1 + copied
      invariant forall i :: 0 <= i < copied ==> Goes(flag, w.sender.Some?, fates, i)
      invariant half.state.wire ==
                old(half.state.wire) + SentFrames(half.cipher, w, chunks[..copied], SeqsFrom(s0, copied))
    {
      RaisedBy(flag, w.sender.Some?, fates, copied);
      if fates[copied].peerCloses {
        half.sentFin.isSet := true;
      }
      r := half.Write(chunks[copied], fates[copied].sealOk, fates[copied].sendOk);
      if r.Err? {
        return;
      }
      OneMoreSent(half.cipher, w, chunks, s0, copied, old(half.state.wire));
      copied := copied + 1;
    }
    if readFails {
      r := Err(Socket);
    }
    assert chunks[..copied] == chunks;
  }

  lemma NoneSent(c: Cipher, w: Writer, chunks: seq<Bytes>, s0: int, wire: seq<Message>)
    requires -0x8000_0000 <= s0 <= 0x7FFF_FFFF
    ensures wire + SentFrames(c, w, chunks[..0], SeqsFrom(s0, 0)) == wire
    ensures AfterWrites(w, 0) == w && chunks[..|chunks|] == chunks
  {
    Unit(wire);
  }

  lemma OneMoreSent(c: Cipher, w: Writer, chunks: seq<Bytes>, s0: int, n: nat, wire: seq<Message>)
    requires n < |chunks| && -0x8000_0000 <= s0 && s0 + n < 0x7FFF_FFFF
    ensures wire + SentFrames(c, w, chunks[..n], SeqsFrom(s0, n)) + [AfterWrites(w, n).Frame(c, chunks[n], s0 + n)]
         == wire + SentFrames(c, w, chunks[..n + 1], SeqsFrom(s0, n + 1))
    ensures AfterWrites(w, n + 1) == AfterWrites(w, n).Next()
    ensures AfterWrites(w, n).Next().sender.Some? == AfterWrites(w, n).sender.Some?
  {
    hide SentFrames;
    SentFramesSnoc(c, w, chunks[..n], SeqsFrom(s0, n), chunks[n], s0 + n);
    assert chunks[..n + 1] == chunks[..n] + [chunks[n]];
    assert SeqsFrom(s0, n + 1) == SeqsFrom(s0, n) + [s0 + n];
    Assoc(wire, SentFrames(c, w, chunks[..n], SeqsFrom(s0, n)), [AfterWrites(w, n).Frame(c, chunks[n], s0 + n)]);
  }

  /** With all writes before it gone through, the flag is up at a write only if it was or the peer closes just then. */
  lemma RaisedBy(flag: bool, sealed: bool, fates: seq<Fate>, n: nat)
    requires n < |fates| && forall i :: 0 <= i < n ==> Goes(flag, sealed, fates, i)
    ensures Raised(flag, fates, n) <==> flag || fates[n].peerCloses
  {
    forall k | 0 <= k < n
      ensures !fates[k].peerCloses
    {
      assert Goes(flag, sealed, fates, k);
    }
  }

  /** The socket-to-ziti side of `splice`: copy, then half-close whether the copy ended or failed. */
  method SocketToZiti(half: EdgeWriteHalf, chunks: seq<Bytes>, fates: seq<Fate>, readFails: bool, finOk: bool)
    returns (r: Result<(), WriteError>, copied: nat)
    requires |fates| == |chunks|
    requires -0x8000_0000 <= half.state.seqNo && half.state.seqNo + |chunks| + 1 < 0x7FFF_FFFF
    modifies half, half.sentFin, half.state`seqNo, half.state`wire
    ensures half.sentFin.isSet && copied <= |chunks|
    ensures forall i :: 0 <= i < copied ==> Goes(old(half.sentFin.isSet), old(half.sender).Some?, fates, i)
    ensures copied < |chunks| ==>
              && !Goes(old(half.sentFin.isSet), old(half.sender).Some?, fates, copied)
              && r == Err(Refusal(old(half.sentFin.isSet), old(half.sender).Some?, fates, copied))
    ensures copied == |chunks| ==> r == if readFails then Err(Socket) else Ok(())
    ensures old(half.state.seqNo) <= half.state.seqNo < 0x7FFF_FFFF
    ensures var closedBefore := if r == Err(WriteAfterClose) then true else old(half.sentFin.isSet);
            half.state.wire == old(half.state.wire)
              + SentFrames(half.cipher, old(half.Value()), chunks[..copied],
                           SeqsFrom(old(half.state.seqNo) + 1, copied))
              + (if finOk && !closedBefore then [BuildFin(half.connId).(sequence := half.state.seqNo)] else [])
  {
    r, copied := PumpSockToZiti(half, chunks, fates, readFails);
    var _ := half.CloseWrite(finOk);
  }
}

/**
 The write half at the granularity of its awaits. `write` borrows the half exclusively; `close_write` and
 `close` share it, so they may overlap each other. The peer's StateClosed may raise the flag at any point.
 */
module WriteRuns {
  import opened Base
  import opened Codec
  import opened DialWire
  import opened SecretStream
  import opened WriteHalf

  datatype State = State(
    w: Writer,
    sentFin: bool,
    writing: Option<Message>,
    finishing: bool,
    closing: nat,
    log: seq<Message>)

  datatype Step =
    | BeginWrite(data: Bytes, sequence: I32)
    | EndWrite(ok: bool)
    | BeginCloseWrite
    | EndCloseWrite(sequence: I32, ok: bool)
    | BeginClose
    | EndClose(sequence: I32, ok: bool)
    | PeerClosed

  predicate Enabled(s: State, step: Step) {
    match step
    case BeginWrite(_, _) => s.writing.None? && !s.finishing && s.closing == 0
    case EndWrite(_) => s.writing.Some?
    case BeginCloseWrite => s.writing.None?
    case EndCloseWrite(_, _) => s.finishing
    case BeginClose => s.writing.None?
    case EndClose(_, _) => s.closing > 0
    case PeerClosed => true
  }

  /** A refused or cancelled send is an `End…` with `ok` false. */
  function Apply(c: Cipher, s: State, step: Step): (s': State)
    requires Enabled(s, step)
  {
    match step
    case BeginWrite(data, sq) =>
      if s.sentFin then s else s.(w := s.w.Next(), writing := Some(s.w.Frame(c, data, sq)))
    case EndWrite(ok) => s.(writing := None, log := if ok then s.log + [s.writing.value] else s.log)
    case BeginCloseWrite => if s.sentFin then s else s.(sentFin := true, finishing := true)
    case EndCloseWrite(sq, ok) =>
      s.(finishing := false, log := if ok then s.log + [BuildFin(s.w.connId).(sequence := sq)] else s.log)
    case BeginClose => s.(sentFin := true, closing := s.closing + 1)
    case EndClose(sq, ok) =>
      s.(closing := s.closing - 1, log := if ok then s.log + [BuildStateClosed(s.w.connId).(sequence := sq)] else s.log)
    case PeerClosed => s.(sentFin := true)
  }

  /** A fresh plaintext half, or an encrypted one whose stream header is already out. */
  ghost predicate Init(s: State) {
    && !s.sentFin && s.writing.None? && !s.finishing && s.closing == 0
    && ( || (s.w.first && s.w.sender.None? && s.log == [])
         || (!s.w.first && s.w.sender.Some? &&
             exists sq: I32 :: s.log == [BuildData(s.w.connId, s.w.sender.value.header, true).(sequence := sq)]))
  }

  ghost predicate IsRun(c: Cipher, run: seq<State>, steps: seq<Step>) {
    && |run| == |steps| + 1
    && Init(run[0])
    && forall i :: 0 <= i < |steps| ==> Enabled(run[i], steps[i]) && run[i + 1] == Apply(c, run[i], steps[i])
  }

  predicate IsFin(m: Message) {
    m.contentType == CT_DATA && HasFin(m)
  }

  predicate IsPayload(m: Message) {
    m.contentType == CT_DATA && !HasFin(m)
  }

  predicate IsClosed(m: Message) {
    m.contentType == CT_STATE_CLOSED
  }

  /**
   What a log of this half may look like: payload first, then only FIN and StateClosed, at most one FIN, and
   MULTIPART on nothing but the very first frame.
   */
  ghost predicate WellOrdered(log: seq<Message>) {
    && (forall i :: 0 <= i < |log| ==> IsPayload(log[i]) || IsFin(log[i]) || IsClosed(log[i]))
    && (forall i, j :: 0 <= i < j < |log| && IsPayload(log[j]) ==> IsPayload(log[i]))
    && (forall i, j :: 0 <= i < j < |log| ==> !(IsFin(log[i]) && IsFin(log[j])))
    && (forall i :: 0 < i < |log| ==> !HasMultipart(log[i]))
  }

  ghost predicate NoEnd(log: seq<Message>) {
    forall i :: 0 <= i < |log| ==> IsPayload(log[i])
  }

  ghost predicate Inv(s: State) {
    && WellOrdered(s.log)
    && (!s.sentFin ==> NoEnd(s.log) && !s.finishing && s.closing == 0)
    && (s.writing.Some? ==> NoEnd(s.log) && !s.finishing && s.closing == 0 && IsPayload(s.writing.value))
    && (s.writing.Some? && HasMultipart(s.writing.value) ==> s.log == [])
    && (s.finishing ==> s.sentFin && forall i :: 0 <= i < |s.log| ==> !IsFin(s.log[i]))
    && (s.closing > 0 ==> s.sentFin)
    && (s.w.first ==> s.writing.None? && forall i :: 0 <= i < |s.log| ==> !IsPayload(s.log[i]))
  }

  lemma FrameKinds(c: Cipher, w: Writer, data: Bytes, sq: I32)
    ensures IsPayload(w.Frame(c, data, sq)) && HasMultipart(w.Frame(c, data, sq)) == w.first
    ensures var fin := BuildFin(w.connId).(sequence := sq);
            IsFin(fin) && !IsPayload(fin) && !HasMultipart(fin)
    ensures var closed := BuildStateClosed(w.connId).(sequence := sq);
            IsClosed(closed) && !IsFin(closed) && !IsPayload(closed) && !HasMultipart(closed)
  {
    hide Le, FromLe;
    var body := match w.sender case None => data case Some(at) => c.push(at.key, at.header, at.n, data);
    BuiltFrames(w.connId, body, w.first, sq);
  }

  lemma InitInv(s: State)
    requires Init(s)
    ensures Inv(s)
  {
    if !s.w.first {
      var sq: I32 :| s.log == [BuildData(s.w.connId, s.w.sender.value.header, true).(sequence := sq)];
      BuiltFrames(s.w.connId, s.w.sender.value.header, true, sq);
    }
  }

  lemma InvStep(c: Cipher, s: State, step: Step)
    requires Inv(s) && Enabled(s, step)
    ensures Inv(Apply(c, s, step))
  {
    hide IsFin, IsPayload, IsClosed, HasMultipart, BuildFin, BuildStateClosed;
    match step {
      case BeginWrite(data, sq) =>
        FrameKinds(c, s.w, data, sq);
        assert !s.sentFin && s.log != [] ==> IsPayload(s.log[0]);
      case EndCloseWrite(sq, _) => FrameKinds(c, s.w, [], sq);
      case EndClose(sq, _) => FrameKinds(c, s.w, [], sq);
      case EndWrite(_) => KindsExclude(s.writing.value);
      case BeginCloseWrite =>
        if !s.sentFin {
          NoEndNothingFinal(s.log);
        }
      case _ =>
    }
  }

  lemma KindsExclude(m: Message)
    ensures IsPayload(m) ==> !IsFin(m)
    ensures IsClosed(m) ==> !IsFin(m) && !IsPayload(m)
  {
  }

  lemma {:induction false} InvHolds(c: Cipher, run: seq<State>, steps: seq<Step>, i: nat)
    requires IsRun(c, run, steps) && i < |run|
    ensures Inv(run[i])
  {
    if i == 0 {
      InitInv(run[0]);
    } else {
      InvHolds(c, run, steps, i - 1);
      InvStep(c, run[i - 1], steps[i - 1]);
    }
  }

  /** Over every interleaving: no payload or second FIN follows a FIN or StateClosed; MULTIPART leads or is absent. */
  lemma LogStaysWellOrdered(c: Cipher, run: seq<State>, steps: seq<Step>, i: nat)
    requires IsRun(c, run, steps) && i < |run|
    ensures WellOrdered(run[i].log)
  {
    InvHolds(c, run, steps, i);
  }

  /** No FIN stands behind a StateClosed. */
  ghost predicate FinFirst(log: seq<Message>) {
    forall i, j :: 0 <= i < j < |log| ==> !(IsClosed(log[i]) && IsFin(log[j]))
  }

  ghost predicate AnyClosed(log: seq<Message>) {
    exists i :: 0 <= i < |log| && IsClosed(log[i])
  }

  /** A FIN goes out behind a StateClosed. */
  ghost predicate LateFin(s: State, step: Step) {
    step.EndCloseWrite? && step.ok && AnyClosed(s.log)
  }

  lemma FinFirstStep(c: Cipher, s: State, step: Step)
    requires Inv(s) && Enabled(s, step)
    ensures FinFirst(Apply(c, s, step).log) <==> FinFirst(s.log) && !LateFin(s, step)
  {
    hide IsFin, IsPayload, IsClosed, HasMultipart, BuildFin, BuildStateClosed;
    var s' := Apply(c, s, step);
    var n := |s.log|;
    assert forall i :: 0 <= i < n ==> s'.log[i] == s.log[i];
    match step {
      case EndCloseWrite(sq, ok) =>
        FrameKinds(c, s.w, [], sq);
        if ok {
          KindsExclude(s'.log[n]);
          if AnyClosed(s.log) {
            var i :| 0 <= i < n && IsClosed(s.log[i]);
            assert IsClosed(s'.log[i]) && IsFin(s'.log[n]);
          }
        }
      case EndClose(sq, _) => FrameKinds(c, s.w, [], sq);
      case EndWrite(_) => KindsExclude(s.writing.value);
      case _ =>
    }
    if !FinFirst(s.log) {
      var i, j :| 0 <= i < j < n && IsClosed(s.log[i]) && IsFin(s.log[j]);
      assert IsClosed(s'.log[i]) && IsFin(s'.log[j]);
    }
  }

  lemma {:induction false} LateFinIff(c: Cipher, run: seq<State>, steps: seq<Step>, n: nat)
    requires IsRun(c, run, steps) && n < |run|
    ensures FinFirst(run[n].log) <==> forall i :: 0 <= i < n ==> !LateFin(run[i], steps[i])
  {
    if n == 0 {
      InitInv(run[0]);
    } else {
      LateFinIff(c, run, steps, n - 1);
      InvHolds(c, run, steps, n - 1);
      FinFirstStep(c, run[n - 1], steps[n - 1]);
    }
  }

  // ----- the same, said of the calls ------------------------------------------------------------------

  /** The calls, ours and the peer's, that raise the shared flag. */
  predicate Raises(step: Step) {
    step.BeginCloseWrite? || step.BeginClose? || step.PeerClosed?
  }

  /** `close_write` begins at `b` and is the first to raise the flag, so it is the one that sends a FIN. */
  ghost predicate Wins(steps: seq<Step>, b: int) {
    0 <= b < |steps| && steps[b].BeginCloseWrite? && forall k :: 0 <= k < b ==> !Raises(steps[k])
  }

  /**
   A whole `close` inside the winning `close_write`: begun at `a` and its StateClosed taken at `i`, both between the
   begin at `b` and the FIN taken at `j`.
   */
  ghost predicate Overlap(steps: seq<Step>, b: int, a: int, i: int, j: int) {
    && 0 <= b < a < i < j < |steps| && Wins(steps, b)
    && steps[a].BeginClose?
    && steps[i].EndClose? && steps[i].ok
    && steps[j].EndCloseWrite? && steps[j].ok
  }

  lemma {:induction false} FlagIff(c: Cipher, run: seq<State>, steps: seq<Step>, n: nat)
    requires IsRun(c, run, steps) && n < |run|
    ensures run[n].sentFin <==> exists k :: 0 <= k < n && Raises(steps[k])
  {
    if n == 0 {
    } else {
      FlagIff(c, run, steps, n - 1);
      assert run[n] == Apply(c, run[n - 1], steps[n - 1]);
      if run[n - 1].sentFin {
        var k :| 0 <= k < n - 1 && Raises(steps[k]);
      }
    }
  }

  /** A FIN is under way only on behalf of the call that won. */
  lemma {:induction false} FinishingWon(c: Cipher, run: seq<State>, steps: seq<Step>, n: nat) returns (b: int)
    requires IsRun(c, run, steps) && n < |run| && run[n].finishing
    ensures 0 <= b < n && Wins(steps, b)
  {
    assert n > 0;
    assert run[n] == Apply(c, run[n - 1], steps[n - 1]);
    if run[n - 1].finishing {
      b := FinishingWon(c, run, steps, n - 1);
    } else {
      b := n - 1;
      FlagIff(c, run, steps, n - 1);
    }
  }

  /** A StateClosed is under way only on behalf of a call that began. */
  lemma {:induction false} ClosingBegan(c: Cipher, run: seq<State>, steps: seq<Step>, n: nat) returns (a: int)
    requires IsRun(c, run, steps) && n < |run| && run[n].closing > 0
    ensures 0 <= a < n && steps[a].BeginClose?
  {
    assert n > 0;
    assert run[n] == Apply(c, run[n - 1], steps[n - 1]);
    if steps[n - 1].BeginClose? {
      a := n - 1;
    } else {
      a := ClosingBegan(c, run, steps, n - 1);
    }
  }

  lemma ClosedStep(c: Cipher, s: State, step: Step)
    requires Inv(s) && Enabled(s, step)
    ensures AnyClosed(Apply(c, s, step).log) <==> AnyClosed(s.log) || (step.EndClose? && step.ok)
  {
    hide IsFin, IsPayload, IsClosed, HasMultipart, BuildFin, BuildStateClosed;
    var s' := Apply(c, s, step);
    var n := |s.log|;
    assert forall i :: 0 <= i < n ==> s'.log[i] == s.log[i];
    if AnyClosed(s.log) {
      var i :| 0 <= i < n && IsClosed(s.log[i]);
      assert IsClosed(s'.log[i]);
    }
    match step {
      case EndCloseWrite(sq, _) => FrameKinds(c, s.w, [], sq); FinNotClosed(s.w.connId, sq);
      case EndClose(sq, ok) =>
        FrameKinds(c, s.w, [], sq);
        assert ok ==> IsClosed(s'.log[n]);
      case EndWrite(_) => KindsExclude(s.writing.value);
      case _ =>
    }
  }

  lemma FinNotClosed(connId: U32, sq: I32)
    ensures !IsClosed(BuildFin(connId).(sequence := sq))
  {
  }

  lemma {:induction false} ClosedIff(c: Cipher, run: seq<State>, steps: seq<Step>, n: nat)
    requires IsRun(c, run, steps) && n < |run|
    ensures AnyClosed(run[n].log) <==> exists i :: 0 <= i < n && steps[i].EndClose? && steps[i].ok
  {
    if n == 0 {
      InitInv(run[0]);
      NoEndNothingFinal(run[0].log);
    } else {
      ClosedIff(c, run, steps, n - 1);
      InvHolds(c, run, steps, n - 1);
      ClosedStep(c, run[n - 1], steps[n - 1]);
      if AnyClosed(run[n - 1].log) {
        var i :| 0 <= i < n - 1 && steps[i].EndClose? && steps[i].ok;
      }
    }
  }

  /**
   A FIN follows a StateClosed exactly when a whole `close`, successful, falls inside the `close_write` that won the
   flag, and that one succeeds too: a statement about the calls alone.
   */
  lemma OrderBreaksIff(c: Cipher, run: seq<State>, steps: seq<Step>)
    requires IsRun(c, run, steps)
    ensures !FinFirst(run[|steps|].log) <==> exists b, a, i, j :: Overlap(steps, b, a, i, j)
  {
    LateFinIff(c, run, steps, |steps|);
    if !FinFirst(run[|steps|].log) {
      var j :| 0 <= j < |steps| && LateFin(run[j], steps[j]);
      LateFinOverlaps(c, run, steps, j);
    }
    if b, a, i, j :| Overlap(steps, b, a, i, j) {
      ClosedIff(c, run, steps, j);
      assert LateFin(run[j], steps[j]);
    }
  }

  lemma LateFinOverlaps(c: Cipher, run: seq<State>, steps: seq<Step>, j: nat)
    requires IsRun(c, run, steps) && j < |steps| && LateFin(run[j], steps[j])
    ensures exists b, a, i :: Overlap(steps, b, a, i, j)
  {
    assert Enabled(run[j], steps[j]);
    var b := FinishingWon(c, run, steps, j);
    ClosedIff(c, run, steps, j);
    var i :| 0 <= i < j && steps[i].EndClose? && steps[i].ok;
    assert Enabled(run[i], steps[i]);
    var a := ClosingBegan(c, run, steps, i);
    assert Raises(steps[a]) && Overlap(steps, b, a, i, j);
  }

  /** Callers that never start `close` while a `close_write` is under way, as `splice` does not, keep that order. */
  lemma {:induction false} SequentialClosersKeepOrder(c: Cipher, run: seq<State>, steps: seq<Step>, n: nat)
    requires IsRun(c, run, steps) && n < |run|
    requires forall i :: 0 <= i < |steps| && steps[i].BeginClose? ==> !run[i].finishing
    ensures FinFirst(run[n].log)
    ensures run[n].finishing ==> run[n].closing == 0 && !AnyClosed(run[n].log)
  {
    if n == 0 {
      InitInv(run[0]);
    } else {
      SequentialClosersKeepOrder(c, run, steps, n - 1);
      InvHolds(c, run, steps, n - 1);
      FinFirstStep(c, run[n - 1], steps[n - 1]);
      if run[n].finishing && !run[n - 1].finishing {
        NoEndNothingFinal(run[n - 1].log);
      }
    }
  }

  lemma NoEndNothingFinal(log: seq<Message>)
    requires NoEnd(log)
    ensures !AnyClosed(log)
    ensures forall i :: 0 <= i < |log| ==> !IsFin(log[i])
  {
    forall i | 0 <= i < |log|
      ensures !IsClosed(log[i]) && !IsFin(log[i])
    {
      KindsExclude(log[i]);
    }
  }

  /**
   And nothing less will do: as soon as a `close` starts during the winning `close_write`, both being accepted next,
   in that order, breaks it.
   */
  lemma OverlapCanBreak(c: Cipher, run: seq<State>, steps: seq<Step>, i: nat, sq: I32, sq': I32)
    requires IsRun(c, run, steps) && i < |steps| && steps[i].BeginClose? && run[i].finishing
    ensures var steps' := steps[..i + 1] + [EndClose(sq, true), EndCloseWrite(sq', true)];
            exists run': seq<State> :: IsRun(c, run', steps') && !FinFirst(run'[|steps'|].log)
  {
    var steps' := steps[..i + 1] + [EndClose(sq, true), EndCloseWrite(sq', true)];
    assert Enabled(run[i], steps[i]) && run[i + 1] == Apply(c, run[i], steps[i]);
    var s := Apply(c, run[i + 1], EndClose(sq, true));
    var run' := run[..i + 2] + [s, Apply(c, s, EndCloseWrite(sq', true))];
    assert forall k :: 0 <= k < i + 2 ==> run'[k] == run[k];
    assert forall k :: 0 <= k < i + 1 ==> steps'[k] == steps[k];
    assert steps'[i + 1] == EndClose(sq, true) && steps'[i + 2] == EndCloseWrite(sq', true);
    assert IsRun(c, run', steps');
    var b := FinishingWon(c, run, steps, i);
    assert Wins(steps', b);
    assert Overlap(steps', b, i, i + 1, i + 2);
    OrderBreaksIff(c, run', steps');
  }

  /** Overlapping them does break it: both take `&self`, so nothing in the types forbids this run. */
  lemma OverlappingClosersBreakOrder(c: Cipher, connId: U32) returns (run: seq<State>, steps: seq<Step>)
    ensures IsRun(c, run, steps) && !FinFirst(run[|run| - 1].log)
  {
    hide IsFin, IsPayload, IsClosed, HasMultipart, BuildFin, BuildStateClosed;
    var s0 := State(Writer(connId, true, None), false, None, false, 0, []);
    steps := [BeginCloseWrite, BeginClose, EndClose(1, true), EndCloseWrite(2, true)];
    var s1 := Apply(c, s0, steps[0]);
    var s2 := Apply(c, s1, steps[1]);
    var s3 := Apply(c, s2, steps[2]);
    var s4 := Apply(c, s3, steps[3]);
    run := [s0, s1, s2, s3, s4];
    FrameKinds(c, s0.w, [], 1);
    FrameKinds(c, s0.w, [], 2);
    assert IsClosed(s4.log[0]) && IsFin(s4.log[1]);
  }

  /** Undisturbed, the steps of each call are the call: what it appends, and that it raises the flag. */
  lemma QuietCalls(c: Cipher, s: State, data: Bytes, sq: I32, ok: bool)
    requires s.writing.None? && !s.finishing && s.closing == 0
    ensures var w := Apply(c, s, BeginWrite(data, sq));
            && (s.sentFin ==> w == s)
            && (!s.sentFin ==>
                  Apply(c, w, EndWrite(ok)) ==
                  s.(w := s.w.Next(), log := s.log + if ok then [s.w.Frame(c, data, sq)] else []))
    ensures var f := Apply(c, s, BeginCloseWrite);
            && (s.sentFin ==> f == s)
            && (!s.sentFin ==>
                  Apply(c, f, EndCloseWrite(sq, ok)) ==
                  s.(sentFin := true, log := s.log + if ok then [BuildFin(s.w.connId).(sequence := sq)] else []))
    ensures Apply(c, Apply(c, s, BeginClose), EndClose(sq, ok)) ==
            s.(sentFin := true, log := s.log + if ok then [BuildStateClosed(s.w.connId).(sequence := sq)] else [])
  {
    hide BuildFin, BuildStateClosed;
    Unit(s.log);
  }
}
