/**
 Socket bytes in equal socket bytes out: copy loop, sealing, framing, marshalling, one shared byte stream,
 parsing, demultiplexing, unsealing and the copy loop at the far end.
 */
module EndToEnd {
  import opened Base
  import opened Codec
  import opened Frames
  import opened DialWire
  import opened SecretStream
  import opened Mux
  import opened ReadHalf
  import opened WriteHalf

  /** Size of the socket copy buffer, hence the largest chunk a single write carries. */
  const PROXY_BUF := 0x4000 - 17

  // ----- demultiplexing ---------------------------------------------------------------------------

  /** Frames the receive loop routes to a connection's queue. */
  predicate ToConn(m: Message, conn: U32) {
    (m.contentType == CT_DATA || m.contentType == CT_STATE_CLOSED) && HeaderU32(m, HDR_CONN_ID) == Some(conn)
  }

  function Mine(ms: seq<Message>, conn: U32): seq<Message> {
    if ms == [] then []
    else if ToConn(ms[0], conn) then [ms[0]] + Mine(ms[1..], conn)
    else Mine(ms[1..], conn)
  }

  /**
   What `rx_loop` puts on the queue of a registered `conn`: a reply somebody waits for goes to the waiter. The waiters
   come and go as other tasks please: `waiters(i)` is the table when the frame at `i` arrives.
   */
  function RxInbox(ms: seq<Message>, at: nat, waiters: nat -> set<I32>, conn: U32): seq<Message>
    decreases |ms|
  {
    if ms == [] then []
    else
      var reply := HeaderI32(ms[0], HDR_REPLY_FOR);
      var later := RxInbox(ms[1..], at + 1, waiters, conn);
      if reply.Some? && reply.value in waiters(at) then later
      else if ToConn(ms[0], conn) then [ms[0]] + later
      else later
  }

  ghost predicate NoReplies(ms: seq<Message>) {
    forall i :: 0 <= i < |ms| ==> HeaderI32(ms[i], HDR_REPLY_FOR) == None
  }

  lemma {:induction false} RxInboxIsMine(ms: seq<Message>, at: nat, waiters: nat -> set<I32>, conn: U32)
    requires NoReplies(Mine(ms, conn))
    ensures RxInbox(ms, at, waiters, conn) == Mine(ms, conn)
    decreases |ms|
  {
    hide HeaderU32, HeaderI32;
    if ms == [] {
    } else if ToConn(ms[0], conn) {
      HeadTail([ms[0]] + Mine(ms[1..], conn), []);
      assert HeaderI32(Mine(ms, conn)[0], HDR_REPLY_FOR) == None;
      assert NoReplies(Mine(ms[1..], conn)) by {
        assert Mine(ms[1..], conn) == Mine(ms, conn)[1..];
      }
      RxInboxIsMine(ms[1..], at + 1, waiters, conn);
    } else {
      RxInboxIsMine(ms[1..], at + 1, waiters, conn);
    }
  }

  /** A reply somebody waits for goes to the waiter and never to a connection, whatever else it says. */
  lemma RepliesGoToWaiters(m: Message, ms: seq<Message>, at: nat, waiters: nat -> set<I32>, conn: U32)
    requires HeaderI32(m, 1).Some? && HeaderI32(m, 1).value in waiters(at)
    ensures RxInbox([m] + ms, at, waiters, conn) == RxInbox(ms, at + 1, waiters, conn)
  {
    hide HeaderI32, ToConn;
    HeadTail([m], ms);
    Unit(ms);
  }

  /** Any other Data or StateClosed frame that names the connection goes to its queue, next in order. */
  lemma ItsFramesArrive(m: Message, ms: seq<Message>, at: nat, waiters: nat -> set<I32>, conn: U32)
    requires HeaderI32(m, 1).Some? ==> HeaderI32(m, 1).value !in waiters(at)
    requires (m.contentType == 60786 || m.contentType == 60785) && HeaderU32(m, 1000) == Some(conn)
    ensures RxInbox([m] + ms, at, waiters, conn) == [m] + RxInbox(ms, at + 1, waiters, conn)
  {
    hide HeaderI32, HeaderU32;
    HeadTail([m], ms);
    Unit(ms);
  }

  /** Only Data and StateClosed frames that name the connection are put on its queue, whatever it is sent. */
  lemma {:induction false} OnlyItsFrames(ms: seq<Message>, at: nat, waiters: nat -> set<I32>, conn: U32, m: Message)
    requires m in RxInbox(ms, at, waiters, conn)
    ensures m in ms && (m.contentType == 60786 || m.contentType == 60785) && HeaderU32(m, 1000) == Some(conn)
  {
    hide HeaderI32, HeaderU32;
    if ms == [] {
    } else if m in RxInbox(ms[1..], at + 1, waiters, conn) {
      OnlyItsFrames(ms[1..], at + 1, waiters, conn, m);
    }
  }

  // ----- one conversation ---------------------------------------------------------------------------

  predicate Chunked(chunks: seq<Bytes>) {
    forall i :: 0 <= i < |chunks| ==> 0 < |chunks[i]| <= PROXY_BUF
  }

  /**
   Everything one side sends: the stream header when encrypted, a frame per chunk, and the FIN unless the other side
   closed first. `seqs` holds the channel's sequence numbers, in the order header, chunks, FIN.
   */
  function Conversation(c: Cipher, conn: U32, secret: Option<Position>, chunks: seq<Bytes>, seqs: seq<I32>, fin: bool)
    : (ms: seq<Message>)
    requires |seqs| == |chunks| + 2
  {
    var opening := match secret
      case None => []
      case Some(at) => [BuildData(conn, at.header, true).(sequence := seqs[0])];
    var w := Writer(conn, secret.None?, secret);
    opening
    + SentFrames(c, w, chunks, seqs[1..|chunks| + 1])
    + Ending(conn, seqs[|chunks| + 1], fin)
  }

  function Ending(conn: U32, sequence: I32, fin: bool): seq<Message> {
    if fin then [BuildFin(conn).(sequence := sequence)] else []
  }

  /** The far end's crypto once it has taken in what `w` has sent so far. */
  function Mirror(w: Writer): Option<ReadCrypto> {
    match w.sender
    case None => None
    case Some(at) => Some(ReadCrypto(None, Some(at)))
  }

  /** One frame sealed at one end opens at the other, whatever queues behind it. */
  lemma OneFrame(c: Cipher, w: Writer, chunk: Bytes, sq: I32, rest: seq<Message>)
    requires Lawful(c) && chunk != []
    ensures ReadOnce(c, Reader([w.Frame(c, chunk, sq)] + rest, false, Mirror(w)))
         == (Reader(rest, false, Mirror(w.Next())), Chunk(chunk))
  {
    hide HasFin, BuildData;
    var m := w.Frame(c, chunk, sq);
    var body := match w.sender case None => chunk case Some(at) => c.push(at.key, at.header, at.n, chunk);
    BuiltFrames(w.connId, body, w.first, sq);
    HeadTail([m] + rest, []);
    assert ([m] + rest)[1..] == rest;
    if w.sender.Some? {
      var at := w.sender.value;
      assert |c.push(at.key, at.header, at.n, chunk)| == |chunk| + ABYTES;
    }
  }

  lemma {:induction false} DrainSent(c: Cipher, w: Writer, chunks: seq<Bytes>, seqs: seq<I32>, finSeq: I32, fin: bool)
    requires Lawful(c) && |seqs| == |chunks|
    requires forall i :: 0 <= i < |chunks| ==> chunks[i] != []
    ensures Drain(c, Reader(SentFrames(c, w, chunks, seqs) + Ending(w.connId, finSeq, fin), false, Mirror(w)))
         == (Concat(chunks), Eof)
    decreases |chunks|
  {
    hide HasFin, BuildData, BuildFin, ReadOnce, Ending;
    var ending := Ending(w.connId, finSeq, fin);
    if chunks == [] {
      Unit(ending);
      DrainEnding(c, w, finSeq, fin);
    } else {
      var rest := SentFrames(c, w.Next(), chunks[1..], seqs[1..]) + ending;
      DrainSent(c, w.Next(), chunks[1..], seqs[1..], finSeq, fin);
      OneFrame(c, w, chunks[0], seqs[0], rest);
      Assoc([w.Frame(c, chunks[0], seqs[0])], SentFrames(c, w.Next(), chunks[1..], seqs[1..]), ending);
    }
  }

  lemma DrainEnding(c: Cipher, w: Writer, sq: I32, fin: bool)
    requires Lawful(c)
    ensures Drain(c, Reader(Ending(w.connId, sq, fin), false, Mirror(w))) == ([], Eof)
  {
    hide HasFin, BuildFin;
    BuiltFrames(w.connId, [], false, sq);
  }

  /** The far end of a fresh connection, holding the matching key, drains exactly the bytes sent. */
  lemma DrainConversation(c: Cipher, conn: U32, secret: Option<Position>, chunks: seq<Bytes>, seqs: seq<I32>, fin: bool)
    requires Lawful(c) && |seqs| == |chunks| + 2 && Chunked(chunks)
    requires secret.Some? ==> secret.value.n == 0 && |secret.value.header| == STREAM_HEADER_BYTES
    ensures Drain(c, Opened(Conversation(c, conn, secret, chunks, seqs, fin), KeyOf(secret))) == (Concat(chunks), Eof)
  {
    hide HasFin, BuildData, BuildFin, SentFrames, Ending;
    var w := Writer(conn, secret.None?, secret);
    var frames, ending := SentFrames(c, w, chunks, seqs[1..|chunks| + 1]), Ending(conn, seqs[|chunks| + 1], fin);
    DrainSent(c, w, chunks, seqs[1..|chunks| + 1], seqs[|chunks| + 1], fin);
    if secret.None? {
      Unit(frames);
    } else {
      var at := secret.value;
      var opening := BuildData(conn, at.header, true).(sequence := seqs[0]);
      BuiltFrames(conn, at.header, true, seqs[0]);
      Assoc([opening], frames, ending);
      var r := Opened([opening] + (frames + ending), Some(at.key));
      HeadTail(r.inbox, []);
      assert r.inbox[1..] == frames + ending;
      Consumed(c, r, Reader(frames + ending, false, Mirror(w)));
      Unit(Concat(chunks));
    }
  }

  function KeyOf(secret: Option<Position>): Option<Bytes> {
    match secret case None => None case Some(at) => Some(at.key)
  }

  lemma {:induction false} SentFramesShape(c: Cipher, w: Writer, chunks: seq<Bytes>, seqs: seq<I32>)
    requires Lawful(c) && |seqs| == |chunks| && Chunked(chunks)
    ensures Sendable(SentFrames(c, w, chunks, seqs))
    ensures NoReplies(SentFrames(c, w, chunks, seqs))
    ensures AllTo(SentFrames(c, w, chunks, seqs), w.connId)
    decreases |chunks|
  {
    hide BuildData, Marshallable, WithinCap, HeaderI32, HeaderU32, ToConn;
    if chunks == [] {
    } else {
      var chunk := chunks[0];
      SentFramesShape(c, w.Next(), chunks[1..], seqs[1..]);
      var body := match w.sender case None => chunk case Some(at) => c.push(at.key, at.header, at.n, chunk);
      if w.sender.Some? {
        var at := w.sender.value;
        assert |c.push(at.key, at.header, at.n, chunk)| == |chunk| + ABYTES;
      }
      BuiltFramesWithinCap(w.connId, body, w.first, seqs[0]);
      BuiltTo(w.connId, body, w.first, seqs[0]);
    }
  }

  /** No frame of a conversation can trip the reader's size cap, nor be mistaken for a reply. */
  lemma ConversationShape(c: Cipher, conn: U32, secret: Option<Position>, chunks: seq<Bytes>, seqs: seq<I32>, fin: bool)
    requires Lawful(c) && |seqs| == |chunks| + 2 && Chunked(chunks)
    requires secret.Some? ==> |secret.value.header| == STREAM_HEADER_BYTES
    ensures Sendable(Conversation(c, conn, secret, chunks, seqs, fin))
    ensures NoReplies(Conversation(c, conn, secret, chunks, seqs, fin))
    ensures AllTo(Conversation(c, conn, secret, chunks, seqs, fin), conn)
  {
    hide BuildData, BuildFin, Marshallable, WithinCap, HeaderI32, HeaderU32, SentFrames, ToConn;
    var w := Writer(conn, secret.None?, secret);
    SentFramesShape(c, w, chunks, seqs[1..|chunks| + 1]);
    if secret.Some? {
      BuiltFramesWithinCap(conn, secret.value.header, true, seqs[0]);
      BuiltTo(conn, secret.value.header, true, seqs[0]);
    }
    BuiltFramesWithinCap(conn, [], false, seqs[|chunks| + 1]);
    BuiltTo(conn, [], false, seqs[|chunks| + 1]);
  }

  lemma BuiltTo(conn: U32, data: Bytes, first: bool, sequence: I32)
    ensures var m := BuildData(conn, data, first).(sequence := sequence);
            ToConn(m, conn) && HeaderI32(m, HDR_REPLY_FOR) == None
    ensures var m := BuildFin(conn).(sequence := sequence);
            ToConn(m, conn) && HeaderI32(m, HDR_REPLY_FOR) == None
  {
    hide HeaderI32, HeaderU32, BuildData, BuildFin;
    BuiltFrames(conn, data, first, sequence);
  }

  /**
   The channel is shared: `ms` is any interleaving of this conversation's frames with other traffic, and
   `waiters` any replies outstanding at the far end as each frame arrives. The bytes the far socket gets are the
   bytes the near socket gave, for every chunking, plaintext or encrypted.
   */
  lemma SocketToSocket(c: Cipher, conn: U32, secret: Option<Position>, chunks: seq<Bytes>, seqs: seq<I32>, fin: bool,
                       ms: seq<Message>, waiters: nat -> set<I32>)
    requires Lawful(c) && |seqs| == |chunks| + 2 && Chunked(chunks)
    requires secret.Some? ==> secret.value.n == 0 && |secret.value.header| == STREAM_HEADER_BYTES
    requires Sendable(ms) && Mine(ms, conn) == Conversation(c, conn, secret, chunks, seqs, fin)
    ensures var inbox := RxInbox(ReadFrames(MarshalAll(ms)), 0, waiters, conn);
            Drain(c, Opened(inbox, KeyOf(secret))) == (Concat(chunks), Eof)
  {
    hide *;
    ReadFramesMarshalAll(ms);
    ConversationShape(c, conn, secret, chunks, seqs, fin);
    RxInboxIsMine(ms, 0, waiters, conn);
    DrainConversation(c, conn, secret, chunks, seqs, fin);
  }

  // ----- the same, over what the two ends do ----------------------------------------------------------

  ghost predicate AllTo(ms: seq<Message>, conn: U32) {
    forall i :: 0 <= i < |ms| ==> ToConn(ms[i], conn)
  }

  lemma {:induction false} MineAppend(xs: seq<Message>, ys: seq<Message>, conn: U32)
    ensures Mine(xs + ys, conn) == Mine(xs, conn) + Mine(ys, conn)
  {
    hide ToConn;
    if xs == [] {
      Unit(ys);
      Unit(Mine(ys, conn));
    } else {
      HeadTail(xs, ys);
      MineAppend(xs[1..], ys, conn);
      Assoc([xs[0]], Mine(xs[1..], conn), Mine(ys, conn));
    }
  }

  lemma {:induction false} MineAll(ms: seq<Message>, conn: U32)
    requires AllTo(ms, conn)
    ensures Mine(ms, conn) == ms
  {
    hide ToConn;
    if ms == [] {
    } else {
      MineAll(ms[1..], conn);
      HeadTail(ms, []);
    }
  }

  lemma {:induction false} MarshalAllSnoc(ms: seq<Message>, m: Message)
    requires Sendable(ms) && Marshallable(m) && WithinCap(m)
    ensures Sendable(ms + [m]) && MarshalAll(ms + [m]) == MarshalAll(ms) + Marshal(m)
  {
    hide Marshal, Marshallable, WithinCap;
    if ms == [] {
      Unit([m]);
      Unit(Marshal(m));
      assert [m][1..] == [] && MarshalAll([m]) == Marshal(m) + MarshalAll([]);
    } else {
      HeadTail(ms, [m]);
      MarshalAllSnoc(ms[1..], m);
      Assoc(Marshal(ms[0]), MarshalAll(ms[1..]), Marshal(m));
    }
  }

  /** The transport carries what the channel has sent, frame by frame. */
  method Carry(stream: ByteStream, wire: seq<Message>)
    requires stream.pending == [] && Sendable(wire)
    modifies stream
    ensures stream.pending == MarshalAll(wire)
  {
    hide Marshal, Marshallable, WithinCap, MarshalAll;
    NothingToMarshal();
    assert wire[..|wire|] == wire;
    for i := 0 to |wire|
      invariant Sendable(wire[..i]) && stream.pending == MarshalAll(wire[..i])
    {
      assert wire[..i + 1] == wire[..i] + [wire[i]];
      MarshalAllSnoc(wire[..i], wire[i]);
      var bytes := MarshalV2(wire[i]);
      var _ := stream.WriteMessage(wire[i], |bytes|, true);
    }
  }

  lemma NothingToMarshal()
    ensures Sendable([]) && MarshalAll([]) == []
  {
  }

  /** Opening the near end: an encrypted connection sends its stream header first. */
  method Open(state: ChannelState, c: Cipher, conn: U32, secret: Option<Position>)
    returns (half: EdgeWriteHalf, ghost opening: seq<Message>)
    requires -0x8000_0000 <= state.seqNo < 0x7FFF_FFFF
    modifies state`seqNo, state`wire
    ensures fresh(half) && fresh(half.sentFin) && half.state == state && half.cipher == c && half.connId == conn
    ensures half.Value() == Writer(conn, secret.None?, secret) && half.sender == secret && !half.sentFin.isSet
    ensures old(state.seqNo) <= state.seqNo <= old(state.seqNo) + 1
    ensures opening ==
            if secret.Some? then [BuildData(conn, secret.value.header, true).(sequence := state.seqNo)] else []
    ensures state.wire == old(state.wire) + opening
  {
    opening := [];
    Unit(state.wire);
    if secret.Some? {
      var s := state.NextSeq();
      var m := BuildData(conn, secret.value.header, true).(sequence := s);
      opening := [m];
      state.Send(m, true);
    }
    var flag := new Flag();
    half := new EdgeWriteHalf(conn, c, state, flag, secret);
  }

  /**
   One direction of a splice, from socket to socket, over the methods of both ends: open, copy and half-close on a
   channel that carries other traffic too; frames on a byte stream; the receive loop; and the copy into the far
   socket. Whatever the writes and the two sockets do, the far socket has received the chunks that were copied, cut
   where it failed.
   */
  method SpliceAcross(state: ChannelState, c: Cipher, conn: U32, secret: Option<Position>, chunks: seq<Bytes>,
                      fates: seq<Fate>, readFails: bool, finOk: bool, waiters: nat -> set<I32>, room: Option<nat>)
    returns (copied: nat, written: Bytes, last: Outcome, sockFailed: bool)
    requires Lawful(c) && Chunked(chunks) && |fates| == |chunks|
    requires secret.Some? ==> secret.value.n == 0 && |secret.value.header| == STREAM_HEADER_BYTES
    requires -0x8000_0000 <= state.seqNo && state.seqNo + |chunks| + 2 < 0x7FFF_FFFF
    requires Sendable(state.wire) && Mine(state.wire, conn) == []
    modifies state`seqNo, state`wire
    ensures copied <= |chunks| && forall i :: 0 <= i < copied ==> Goes(false, secret.Some?, fates, i)
    ensures copied < |chunks| ==> !Goes(false, secret.Some?, fates, copied)
    ensures written == Taken(Concat(chunks[..copied]), room)
    ensures sockFailed <==> room.Some? && room.value < |Concat(chunks[..copied])|
    ensures !sockFailed ==> last == Eof
  {
    hide *;
    ghost var traffic := state.wire;
    var half;
    ghost var opening;
    half, opening := Open(state, c, conn, secret);
    ghost var w, first := half.Value(), state.seqNo;
    var r;
    r, copied := SocketToZiti(half, chunks, fates, readFails, finOk);
    ghost var seqs, fin := SpliceSends(c, conn, secret, chunks, copied, traffic, opening, first, state.seqNo,
                                       r, finOk, state.wire);
    var stream := new ByteStream([]);
    Carry(stream, state.wire);
    var ms := stream.ReadAll();
    SocketToSocket(c, conn, secret, chunks[..copied], seqs, fin, state.wire, waiters);
    var inbox := RxInbox(ms, 0, waiters, conn);
    var flag := new Flag();
    var far := new EdgeReadHalf(c, flag, inbox, KeyOf(secret));
    written, last, sockFailed := PumpZitiToSock(far, room);
  }

  /** What the near end leaves on the wire is other traffic and a conversation. */
  lemma SpliceSends(c: Cipher, conn: U32, secret: Option<Position>, chunks: seq<Bytes>, copied: nat,
                    traffic: seq<Message>, opening: seq<Message>, first: int, lastSeq: int,
                    r: Result<(), WriteError>, finOk: bool, wire: seq<Message>)
    returns (seqs: seq<I32>, fin: bool)
    requires Lawful(c) && Chunked(chunks) && copied <= |chunks|
    requires secret.Some? ==> secret.value.n == 0 && |secret.value.header| == STREAM_HEADER_BYTES
    requires Sendable(traffic) && Mine(traffic, conn) == []
    requires -0x8000_0000 <= first && first + |chunks| < 0x7FFF_FFFF && -0x8000_0000 <= lastSeq < 0x7FFF_FFFF
    requires opening == if secret.Some? then [BuildData(conn, secret.value.header, true).(sequence := first)] else []
    requires wire == traffic + opening
                     + SentFrames(c, Writer(conn, secret.None?, secret), chunks[..copied], SeqsFrom(first + 1, copied))
                     + (if finOk && r != Err(WriteAfterClose) then [BuildFin(conn).(sequence := lastSeq)] else [])
    ensures |seqs| == copied + 2 && Chunked(chunks[..copied])
    ensures Sendable(wire) && Mine(wire, conn) == Conversation(c, conn, secret, chunks[..copied], seqs, fin)
  {
    hide *;
    fin := finOk && r != Err(WriteAfterClose);
    FirstChunks(chunks, copied);
    seqs := TalkParts(c, conn, secret, chunks[..copied], first, lastSeq, fin, opening);
    var w := Writer(conn, secret.None?, secret);
    var frames, ending := SentFrames(c, w, chunks[..copied], SeqsFrom(first + 1, copied)), Ending(conn, lastSeq, fin);
    EndingIs(conn, lastSeq, fin);
    Regroup(traffic, opening, frames, ending);
    var talk := opening + frames + ending;
    ConversationShape(c, conn, secret, chunks[..copied], seqs, fin);
    MineAppend(traffic, talk, conn);
    MineAll(talk, conn);
    Unit(talk);
    SendableAppend(traffic, talk);
  }

  lemma FirstChunks(chunks: seq<Bytes>, n: nat)
    requires Chunked(chunks) && n <= |chunks|
    ensures Chunked(chunks[..n]) && |chunks[..n]| == n
  {
  }

  lemma EndingIs(conn: U32, sequence: I32, fin: bool)
    ensures Ending(conn, sequence, fin) == if fin then [BuildFin(conn).(sequence := sequence)] else []
  {
  }

  lemma Regroup<T>(a: seq<T>, b: seq<T>, c: seq<T>, d: seq<T>)
    ensures a + b + c + d == a + (b + c + d)
  {
  }

  lemma SendableAppend(xs: seq<Message>, ys: seq<Message>)
    requires Sendable(xs) && Sendable(ys)
    ensures Sendable(xs + ys)
  {
  }

  /** A conversation in the numbers the channel handed out. */
  lemma TalkParts(c: Cipher, conn: U32, secret: Option<Position>, chunks: seq<Bytes>, first: int, lastSeq: I32,
                  fin: bool, opening: seq<Message>)
    returns (seqs: seq<I32>)
    requires -0x8000_0000 <= first && first + |chunks| < 0x7FFF_FFFF
    requires opening == if secret.Some? then [BuildData(conn, secret.value.header, true).(sequence := first)] else []
    ensures |seqs| == |chunks| + 2
    ensures Conversation(c, conn, secret, chunks, seqs, fin) ==
            opening + SentFrames(c, Writer(conn, secret.None?, secret), chunks, SeqsFrom(first + 1, |chunks|))
            + Ending(conn, lastSeq, fin)
  {
    hide SentFrames, BuildData, Ending;
    var mid := SeqsFrom(first + 1, |chunks|);
    seqs := [first as I32] + mid + [lastSeq];
    assert seqs[1..|chunks| + 1] == mid && seqs[0] == first && seqs[|chunks| + 1] == lastSeq;
  }

  /** The laws asked of the cipher are consistent: here is one that has them. */
  lemma LawfulCipherExists() returns (c: Cipher)
    ensures Lawful(c)
  {
    var pad: Bytes := seq(ABYTES, _ => 0);
    c := Cipher((key: Bytes, header: Bytes, n: nat, p: Bytes) => pad + p,
                (key: Bytes, header: Bytes, n: nat, x: Bytes) => if |x| < ABYTES then None else Some(x[ABYTES..]));
    forall p: Bytes
      ensures (pad + p)[ABYTES..] == p
    {
    }
  }
}
