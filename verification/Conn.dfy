/** The secretstream as an abstract in-order cipher: the only laws used are the two in `Lawful`. */
module SecretStream {
  import opened Base

  const STREAM_HEADER_BYTES := 24
  const ABYTES := 17

  /** `push`/`pull` take the session key, the 24-byte stream header and the index of the frame. */
  datatype Cipher = Cipher(
    push: (Bytes, Bytes, nat, Bytes) -> Bytes,
    pull: (Bytes, Bytes, nat, Bytes) -> Option<Bytes>)

  ghost predicate Lawful(c: Cipher) {
    forall key: Bytes, header: Bytes, n: nat, p: Bytes ::
      && |c.push(key, header, n, p)| == |p| + ABYTES
      && c.pull(key, header, n, c.push(key, header, n, p)) == Some(p)
  }

  /** One direction of a stream, positioned before frame `n`. */
  datatype Position = Position(key: Bytes, header: Bytes, n: nat) {
    function Advance(): Position {
      Position(key, header, n + 1)
    }
  }
}

/** The dial-side frame builders and header readers. */
module DialWire {
  import opened Base
  import opened Codec
  import opened Frames

  const CT_STATE_CONNECTED := 60784
  const CT_STATE_CLOSED := 60785
  const CT_DATA := 60786
  const HDR_REPLY_FOR := 1
  const HDR_CONN_ID := 1000
  const HDR_FLAGS := 1010
  const FLAG_FIN := 1
  const FLAG_MULTIPART := 4

  function BuildData(connId: U32, data: Bytes, first: bool): (m: Message) {
    var base := map[HDR_CONN_ID := Le(connId)];
    Message(CT_DATA, -1, if first then base[HDR_FLAGS := Le(FLAG_MULTIPART)] else base, data)
  }

  /** The empty FIN frame of `close_write`: a plain Data frame whose flags are then set. */
  function BuildFin(connId: U32): (m: Message) {
    var plain := BuildData(connId, [], false);
    plain.(headers := plain.headers[HDR_FLAGS := Le(FLAG_FIN)])
  }

  function BuildStateClosed(connId: U32): (m: Message) {
    Message(CT_STATE_CLOSED, -1, map[HDR_CONN_ID := Le(connId)], [])
  }

  /** `header_u32`: present and exactly four bytes long, or nothing. */
  function HeaderU32(m: Message, key: I32): (r: Option<U32>) {
    if key in m.headers && |m.headers[key]| == 4 then Some(FromLe(m.headers[key])) else None
  }

  function HeaderI32(m: Message, key: I32): (r: Option<I32>) {
    if key in m.headers && |m.headers[key]| == 4 then Some(ToSigned(FromLe(m.headers[key]))) else None
  }

  /** The flags word, absent or malformed counting as zero. */
  function FlagsOf(m: Message): U32 {
    match HeaderU32(m, HDR_FLAGS) case Some(f) => f case None => 0
  }

  predicate HasFin(m: Message) {
    FlagsOf(m) % 2 == 1
  }

  predicate HasMultipart(m: Message) {
    FlagsOf(m) / FLAG_MULTIPART % 2 == 1
  }

  /** What the two ends read out of the frames built above; `sequence` plays no part. */
  lemma BuiltFrames(connId: U32, data: Bytes, first: bool, sequence: I32)
    ensures var m := BuildData(connId, data, first).(sequence := sequence);
            && HeaderU32(m, HDR_CONN_ID) == Some(connId)
            && HeaderI32(m, HDR_REPLY_FOR) == None
            && !HasFin(m) && HasMultipart(m) == first
            && m.body == data && m.contentType == CT_DATA
    ensures var m := BuildFin(connId).(sequence := sequence);
            && HeaderU32(m, HDR_CONN_ID) == Some(connId)
            && HeaderI32(m, HDR_REPLY_FOR) == None
            && HasFin(m) && !HasMultipart(m)
            && m.body == [] && m.contentType == CT_DATA
    ensures var m := BuildStateClosed(connId).(sequence := sequence);
            && HeaderU32(m, HDR_CONN_ID) == Some(connId)
            && HeaderI32(m, HDR_REPLY_FOR) == None
            && m.contentType == CT_STATE_CLOSED
  {
    hide Le, FromLe;
    FromLeLe(connId);
    FromLeLe(FLAG_MULTIPART);
    FromLeLe(FLAG_FIN);
  }

  /** The same frames by content type, header key and header bytes. */
  lemma BuiltFrameBytes(connId: U32, data: Bytes, first: bool, sequence: I32)
    ensures var m := BuildData(connId, data, first).(sequence := sequence);
            && m.contentType == 60786 && m.headers.Keys == (if first then {1000, 1010} else {1000})
            && IsWord(m.headers[1000], connId) && (first ==> m.headers[1010] == [4, 0, 0, 0])
    ensures var m := BuildFin(connId).(sequence := sequence);
            && m.contentType == 60786 && m.headers.Keys == {1000, 1010}
            && IsWord(m.headers[1000], connId) && m.headers[1010] == [1, 0, 0, 0]
    ensures var m := BuildStateClosed(connId).(sequence := sequence);
            && m.contentType == 60785 && m.headers.Keys == {1000} && IsWord(m.headers[1000], connId) && m.body == []
  {
    LeBytes(connId);
    assert Le(4) == [4, 0, 0, 0] && Le(1) == [1, 0, 0, 0];
    hide Le;
  }

  /** Four bytes, least significant first. */
  predicate IsWord(b: Bytes, v: int) {
    |b| == 4 && b[0] + 0x100 * b[1] as int + 0x1_0000 * b[2] as int + 0x100_0000 * b[3] as int == v
  }

  /** What a header word reads as: four bytes as their value, signed or not; anything else as nothing. */
  lemma HeaderWords(m: Message, key: I32)
    ensures HeaderU32(m, key).Some? <==> key in m.headers && |m.headers[key]| == 4
    ensures HeaderI32(m, key).Some? <==> key in m.headers && |m.headers[key]| == 4
    ensures HeaderU32(m, key).Some? ==> IsWord(m.headers[key], HeaderU32(m, key).value)
    ensures HeaderI32(m, key).Some? ==>
              var v := HeaderI32(m, key).value; IsWord(m.headers[key], if v < 0 then v + 0x1_0000_0000 else v)
  {
    if key in m.headers && |m.headers[key]| == 4 {
      FromLeBytes(m.headers[key]);
    }
    hide FromLe;
  }

  /** FIN is bit 0 and MULTIPART bit 2 of the flags; without four bytes of flags there is neither. */
  lemma FlagBits(m: Message)
    ensures 1010 in m.headers && |m.headers[1010]| == 4 ==>
              && (HasFin(m) <==> m.headers[1010][0] % 2 == 1)
              && (HasMultipart(m) <==> m.headers[1010][0] / 4 % 2 == 1)
    ensures !(1010 in m.headers && |m.headers[1010]| == 4) ==> !HasFin(m) && !HasMultipart(m)
  {
    if 1010 in m.headers && |m.headers[1010]| == 4 {
      var b := m.headers[1010];
      FromLeBytes(b);
      LowBits(b[0], b[1] + 0x100 * b[2] as int + 0x1_0000 * b[3] as int);
    }
    hide FromLe;
  }

  lemma LowBits(low: Byte, high: int)
    ensures (low + 0x100 * high) % 2 == low % 2 && (low + 0x100 * high) / 4 % 2 == low / 4 % 2
  {
    assert (low + 0x100 * high) / 4 == low / 4 + 0x40 * high;
  }

  lemma SmallMapSize(connId: U32, flags: U32)
    ensures var one: map<I32, Bytes> := map[HDR_CONN_ID := Le(connId)];
            && MapFits(one) && MapSize(one) == 12
            && MapFits(one[HDR_FLAGS := Le(flags)]) && MapSize(one[HDR_FLAGS := Le(flags)]) == 24
  {
    hide Le;
    var one: map<I32, Bytes> := map[HDR_CONN_ID := Le(connId)];
    var two := one[HDR_FLAGS := Le(flags)];
    MapSizeRemove(two, HDR_FLAGS);
    assert two - {HDR_FLAGS} == one;
    MapSizeRemove(one, HDR_CONN_ID);
    assert one - {HDR_CONN_ID} == map[];
  }

  /** No frame built here with a body below the margin can be refused by the reader. */
  lemma BuiltFramesWithinCap(connId: U32, data: Bytes, first: bool, sequence: I32)
    requires |data| + 24 <= MAX_DATA_SECTION
    ensures var m := BuildData(connId, data, first).(sequence := sequence); Marshallable(m) && WithinCap(m)
    ensures var m := BuildFin(connId).(sequence := sequence); Marshallable(m) && WithinCap(m)
    ensures var m := BuildStateClosed(connId).(sequence := sequence); Marshallable(m) && WithinCap(m)
  {
    hide Le, MapFits, MapSize;
    SmallMapSize(connId, FLAG_MULTIPART);
    SmallMapSize(connId, FLAG_FIN);
  }
}

/** The read half of a connection: in-order delivery, end-of-stream latch, lazily built decryptor. */
module ReadHalf {
  import opened Base
  import opened Codec
  import opened DialWire
  import opened SecretStream

  /** `rxKey` is taken by the first inbound frame (the stream header), which builds `decryptor`. */
  datatype ReadCrypto = ReadCrypto(rxKey: Option<Bytes>, decryptor: Option<Position>)

  datatype CryptoError = BadStreamHeader | FrameTooShort | PullFailed

  datatype Outcome = Chunk(bytes: Bytes) | Eof | Failed(error: CryptoError)

  /** `inbox` is everything the channel will still deliver before it hangs up. */
  datatype Reader = Reader(inbox: seq<Message>, eof: bool, crypto: Option<ReadCrypto>) {
    /** Once the key is taken the decryptor exists, so the source's `expect` cannot fire. */
    predicate Valid() {
      crypto.Some? && crypto.value.rxKey.None? ==> crypto.value.decryptor.Some?
    }
  }

  datatype Verdict = Again | Stop(outcome: Outcome)

  /** One received Data frame, whose `fin` has already been latched into `eof`. */
  function OnData(c: Cipher, crypto: Option<ReadCrypto>, eof: bool, body: Bytes): (r: (Option<ReadCrypto>, Verdict))
    requires crypto.Some? && crypto.value.rxKey.None? ==> crypto.value.decryptor.Some?
  {
    var idle := if eof then Stop(Eof) else Again;
    match crypto
    case None =>
      (None, if body != [] then Stop(Chunk(body)) else idle)
    case Some(cc) =>
      if cc.rxKey.Some? then
        if |body| != STREAM_HEADER_BYTES then (crypto, Stop(Failed(BadStreamHeader)))
        else (Some(ReadCrypto(None, Some(Position(cc.rxKey.value, body, 0)))), idle)
      else if body == [] then (crypto, idle)
      else if |body| < ABYTES then (crypto, Stop(Failed(FrameTooShort)))
      else
        var at := cc.decryptor.value;
        match c.pull(at.key, at.header, at.n, body)
        case None => (crypto, Stop(Failed(PullFailed)))
        case Some(plain) =>
          (Some(cc.(decryptor := Some(at.Advance()))),
           if plain != [] then Stop(Chunk(plain)) else idle)
  }

  /** One received frame of any kind. */
  function Consume(c: Cipher, r: Reader, m: Message): (res: (Reader, Verdict))
    requires r.Valid() && !r.eof
    ensures res.0.Valid() && res.0.inbox == r.inbox
    ensures res.1.Again? ==> !res.0.eof
    ensures res.1 == Stop(Eof) ==> res.0.eof
  {
    if m.contentType == CT_DATA then
      var eof := HasFin(m);
      var (crypto, v) := OnData(c, r.crypto, eof, m.body);
      (Reader(r.inbox, eof, crypto), v)
    else if m.contentType == CT_STATE_CLOSED then
      (r.(eof := true), Stop(Eof))
    else
      (r, Again)
  }

  /** A whole `read` call: its new state and result. */
  function ReadOnce(c: Cipher, r: Reader): (res: (Reader, Outcome))
    requires r.Valid()
    ensures res.0.Valid()
    ensures |res.0.inbox| <= |r.inbox|
    ensures !res.1.Eof? ==> |res.0.inbox| < |r.inbox|
    ensures res.1.Eof? ==> res.0.eof
    decreases |r.inbox|
  {
    if r.eof then (r, Eof)
    else if r.inbox == [] then (r.(eof := true), Eof)
    else
      var (next, v) := Consume(c, r.(inbox := r.inbox[1..]), r.inbox[0]);
      match v
      case Again => ReadOnce(c, next)
      case Stop(o) => (next, o)
  }

  /** Did that call consume a StateClosed, that is, must it raise the flag shared with the writer? */
  function SawPeerClose(c: Cipher, r: Reader): bool
    requires r.Valid()
    decreases |r.inbox|
  {
    !r.eof && r.inbox != [] &&
    (r.inbox[0].contentType == CT_STATE_CLOSED ||
     var (next, v) := Consume(c, r.(inbox := r.inbox[1..]), r.inbox[0]);
     v.Again? && SawPeerClose(c, next))
  }

  /** A flag shared by the two halves (`Arc<AtomicBool>`). */
  class Flag {
    var isSet: bool

    constructor ()
      ensures !isSet
    {
      isSet := false;
    }
  }

  class EdgeReadHalf {
    const cipher: Cipher
    const sentFin: Flag
    var inbox: seq<Message>
    var readEof: bool
    var crypto: Option<ReadCrypto>

    ghost function State(): Reader
      reads this
    {
      Reader(inbox, readEof, crypto)
    }

    constructor (cipher: Cipher, sentFin: Flag, inbox: seq<Message>, rxKey: Option<Bytes>)
      ensures this.cipher == cipher && this.sentFin == sentFin
      ensures State() == Opened(inbox, rxKey)
    {
      this.cipher := cipher;
      this.sentFin := sentFin;
      this.inbox := inbox;
      this.readEof := false;
      this.crypto := match rxKey case None => None case Some(k) => Some(ReadCrypto(Some(k), None));
    }

    /**
     `EdgeReadHalf::read`. The shared flag is raised on a StateClosed and on nothing else: exactly when that is the
     last frame this call took.
     */
    method Read() returns (out: Outcome)
      requires State().Valid()
      modifies this, sentFin
      ensures State().Valid()
      ensures (State(), out) == ReadOnce(cipher, old(State()))
      ensures sentFin.isSet <==>
              || old(sentFin.isSet)
              || (|inbox| < |old(inbox)| && old(inbox)[|old(inbox)| - |inbox| - 1].contentType == 60785)
    {
      hide ReadOnce, SawPeerClose;
      ghost var before := State();
      out := TakeFrames();
      LastTakenCloses(cipher, before, State());
    }

    /** The loop of `read`. */
    method TakeFrames() returns (out: Outcome)
      requires State().Valid()
      modifies this, sentFin
      ensures State().Valid()
      ensures (State(), out) == ReadOnce(cipher, old(State()))
      ensures sentFin.isSet == (old(sentFin.isSet) || SawPeerClose(cipher, old(State())))
    {
      if readEof {
        return Eof;
      }
      while true
        invariant State().Valid() && !readEof
        invariant ReadOnce(cipher, State()) == ReadOnce(cipher, old(State()))
        invariant SawPeerClose(cipher, State()) == SawPeerClose(cipher, old(State()))
        invariant sentFin.isSet == old(sentFin.isSet)
        decreases |inbox|
      {
        if inbox == [] {
          readEof := true;
          return Eof;
        }
        var m := inbox[0];
        inbox := inbox[1..];
        if m.contentType == CT_DATA {
          readEof := HasFin(m);
          var (crypto', v) := OnData(cipher, crypto, readEof, m.body);
          crypto := crypto';
          if v.Stop? {
            return v.outcome;
          }
        } else if m.contentType == CT_STATE_CLOSED {
          readEof := true;
          sentFin.isSet := true;
          return Eof;
        }
      }
    }
  }

  /** A half as `EdgeConn::new` builds it. */
  function Opened(inbox: seq<Message>, rxKey: Option<Bytes>): (r: Reader)
    ensures r.Valid()
  {
    Reader(inbox, false, match rxKey case None => None case Some(k) => Some(ReadCrypto(Some(k), None)))
  }

  // ----- what every run of reads delivers ---------------------------------------------------------

  /** The results of `n` consecutive reads. */
  function Reads(c: Cipher, r: Reader, n: nat): (out: seq<Outcome>)
    requires r.Valid()
    ensures |out| == n
    decreases n
  {
    if n == 0 then []
    else
      var (next, o) := ReadOnce(c, r);
      [o] + Reads(c, next, n - 1)
  }

  /** The flag goes up exactly when the last frame the call took was a StateClosed. */
  lemma {:induction false} PeerCloseIff(c: Cipher, r: Reader)
    requires r.Valid()
    ensures var left := ReadOnce(c, r).0.inbox;
            && |left| <= |r.inbox| && left == r.inbox[|r.inbox| - |left|..]
            && (SawPeerClose(c, r) <==>
                |left| < |r.inbox| && r.inbox[|r.inbox| - |left| - 1].contentType == 60785)
    decreases |r.inbox|
  {
    hide OnData;
    if r.eof || r.inbox == [] {
      assert r.inbox[0..] == r.inbox;
    } else {
      var (next, v) := Consume(c, r.(inbox := r.inbox[1..]), r.inbox[0]);
      if v.Again? {
        PeerCloseIff(c, next);
        var left := ReadOnce(c, next).0.inbox;
        assert next.inbox[|next.inbox| - |left|..] == r.inbox[|r.inbox| - |left|..];
        assert |left| < |next.inbox| ==>
                 next.inbox[|next.inbox| - |left| - 1] == r.inbox[|r.inbox| - |left| - 1];
      }
    }
  }

  lemma LastTakenCloses(c: Cipher, r: Reader, r': Reader)
    requires r.Valid() && ReadOnce(c, r).0 == r'
    ensures SawPeerClose(c, r) <==>
            |r'.inbox| < |r.inbox| && r.inbox[|r.inbox| - |r'.inbox| - 1].contentType == 60785
  {
    hide ReadOnce, SawPeerClose;
    PeerCloseIff(c, r);
  }

  // ----- one Data frame, case by case ----------------------------------------------------------------

  /** Frames that are neither Data nor StateClosed are passed over. */
  lemma OthersIgnored(c: Cipher, r: Reader)
    requires r.Valid() && !r.eof && r.inbox != []
    requires r.inbox[0].contentType != 60786 && r.inbox[0].contentType != 60785
    ensures ReadOnce(c, r) == ReadOnce(c, r.(inbox := r.inbox[1..]))
  {
  }

  /** A StateClosed, whatever it carries, is the end. */
  lemma ClosedEnds(c: Cipher, r: Reader)
    requires r.Valid() && !r.eof && r.inbox != [] && r.inbox[0].contentType == 60785
    ensures ReadOnce(c, r) == (r.(inbox := r.inbox[1..], eof := true), Eof)
  {
  }

  /** In the clear a body is delivered as it is, FIN or not; an empty one only ends the stream, if it has the FIN. */
  lemma PlainFrame(c: Cipher, r: Reader)
    requires !r.eof && r.inbox != [] && r.inbox[0].contentType == 60786 && r.crypto == None
    ensures var m := r.inbox[0];
            var rest := Reader(r.inbox[1..], HasFin(m), None);
            && (m.body != [] ==> ReadOnce(c, r) == (rest, Chunk(m.body)))
            && (m.body == [] && HasFin(m) ==> ReadOnce(c, r) == (rest, Eof))
            && (m.body == [] && !HasFin(m) ==> ReadOnce(c, r) == ReadOnce(c, rest))
  {
    hide HasFin;
  }

  /** The first frame of an encrypted stream is its 24-byte header; it delivers nothing. */
  lemma HeaderFrame(c: Cipher, r: Reader, key: Bytes)
    requires !r.eof && r.inbox != [] && r.inbox[0].contentType == 60786 && r.crypto == Some(ReadCrypto(Some(key), None))
    ensures var m := r.inbox[0];
            var begun := Reader(r.inbox[1..], HasFin(m), Some(ReadCrypto(None, Some(Position(key, m.body, 0)))));
            && (|m.body| != 24 ==>
                  ReadOnce(c, r) == (Reader(r.inbox[1..], HasFin(m), r.crypto), Failed(BadStreamHeader)))
            && (|m.body| == 24 && HasFin(m) ==> ReadOnce(c, r) == (begun, Eof))
            && (|m.body| == 24 && !HasFin(m) ==> ReadOnce(c, r) == ReadOnce(c, begun))
  {
    hide HasFin;
  }

  /** A sealed frame: what `pull` makes of it is delivered, and the position moves; what it refuses delivers nothing. */
  lemma SealedFrame(c: Cipher, r: Reader, at: Position)
    requires !r.eof && r.inbox != [] && r.inbox[0].contentType == 60786 && r.crypto == Some(ReadCrypto(None, Some(at)))
    ensures var m := r.inbox[0];
            var plain := c.pull(at.key, at.header, at.n, m.body);
            var stuck := Reader(r.inbox[1..], HasFin(m), r.crypto);
            var next := Reader(r.inbox[1..], HasFin(m),
                               Some(ReadCrypto(None, Some(Position(at.key, at.header, at.n + 1)))));
            && (m.body == [] && HasFin(m) ==> ReadOnce(c, r) == (stuck, Eof))
            && (m.body == [] && !HasFin(m) ==> ReadOnce(c, r) == ReadOnce(c, stuck))
            && (0 < |m.body| < 17 ==> ReadOnce(c, r) == (stuck, Failed(FrameTooShort)))
            && (|m.body| >= 17 && plain.None? ==> ReadOnce(c, r) == (stuck, Failed(PullFailed)))
            && (|m.body| >= 17 && plain.Some? && plain.value != [] ==> ReadOnce(c, r) == (next, Chunk(plain.value)))
            && (|m.body| >= 17 && plain == Some([]) && HasFin(m) ==> ReadOnce(c, r) == (next, Eof))
            && (|m.body| >= 17 && plain == Some([]) && !HasFin(m) ==> ReadOnce(c, r) == ReadOnce(c, next))
  {
    hide HasFin;
  }

  /** Once a read answers end-of-stream, every later read does too. */
  lemma {:induction false} EofIsForever(c: Cipher, r: Reader, n: nat, i: nat, j: nat)
    requires r.Valid() && i <= j < n
    requires Reads(c, r, n)[i] == Eof
    ensures Reads(c, r, n)[j] == Eof
    decreases n
  {
    var (next, o) := ReadOnce(c, r);
    if i > 0 {
      EofIsForever(c, next, n - 1, i - 1, j - 1);
    } else if j > 0 {
      assert Reads(c, next, n - 1)[0] == Eof;
      EofIsForever(c, next, n - 1, 0, j - 1);
    }
  }

  predicate Terminator(m: Message) {
    m.contentType == CT_STATE_CLOSED || (m.contentType == CT_DATA && HasFin(m))
  }

  /** Two readers that differ only in what stands behind the terminator, `k` frames further on. */
  ghost predicate Frontier(k: nat, a: Reader, b: Reader, pre: seq<Message>, t: Message,
                           junk: seq<Message>, junk': seq<Message>) {
    && k <= |pre|
    && a.inbox == pre[k..] + [t] + junk
    && b == a.(inbox := pre[k..] + [t] + junk')
  }

  /** A read that does not cross the terminator leaves it, and everything behind it, in place. */
  lemma {:induction false} ReadBeforeTerminator(c: Cipher, r: Reader, pre: seq<Message>, t: Message,
                                                junk: seq<Message>, junk': seq<Message>)
    requires r.Valid() && Terminator(t)
    ensures var a := ReadOnce(c, r.(inbox := pre + [t] + junk));
            var b := ReadOnce(c, r.(inbox := pre + [t] + junk'));
            && a.1 == b.1
            && ((a.0.eof && b.0.eof) || exists k: nat :: Frontier(k, a.0, b.0, pre, t, junk, junk'))
    decreases |pre|
  {
    var ra, rb := r.(inbox := pre + [t] + junk), r.(inbox := pre + [t] + junk');
    if !r.eof {
      if pre == [] {
        assert ra.inbox[0] == t && rb.inbox[0] == t;
      } else {
        assert ra.inbox[0] == pre[0] && rb.inbox[0] == pre[0];
        assert ra.inbox[1..] == pre[1..] + [t] + junk;
        assert rb.inbox[1..] == pre[1..] + [t] + junk';
        var (na, va) := Consume(c, ra.(inbox := ra.inbox[1..]), pre[0]);
        var (nb, vb) := Consume(c, rb.(inbox := rb.inbox[1..]), pre[0]);
        assert va == vb && nb == na.(inbox := pre[1..] + [t] + junk');
        if va.Again? {
          ReadBeforeTerminator(c, na, pre[1..], t, junk, junk');
          var a := ReadOnce(c, na);
          assert na == na.(inbox := pre[1..] + [t] + junk);
          if !(a.0.eof && ReadOnce(c, nb).0.eof) {
            var k: nat :| Frontier(k, a.0, ReadOnce(c, nb).0, pre[1..], t, junk, junk');
            assert pre[1..][k..] == pre[k + 1..];
            assert Frontier(k + 1, a.0, ReadOnce(c, nb).0, pre, t, junk, junk');
          }
        } else {
          assert Frontier(1, na, nb, pre, t, junk, junk');
        }
      }
    }
  }

  /**
   Nothing behind the first FIN or StateClosed can be observed: whatever the peer sends after it, every
   sequence of reads, successful or failing, gives the same results.
   */
  lemma {:induction false} NothingAfterTerminator(c: Cipher, r: Reader, pre: seq<Message>, t: Message,
                                                  junk: seq<Message>, junk': seq<Message>, n: nat)
    requires r.Valid() && Terminator(t)
    ensures Reads(c, r.(inbox := pre + [t] + junk), n) == Reads(c, r.(inbox := pre + [t] + junk'), n)
    decreases n
  {
    if n == 0 {
    } else {
      ReadBeforeTerminator(c, r, pre, t, junk, junk');
      var a := ReadOnce(c, r.(inbox := pre + [t] + junk));
      var b := ReadOnce(c, r.(inbox := pre + [t] + junk'));
      if a.0.eof && b.0.eof {
        EofReads(c, a.0, n - 1);
        EofReads(c, b.0, n - 1);
        assert Reads(c, a.0, n - 1) == Reads(c, b.0, n - 1);
      } else {
        var k: nat :| Frontier(k, a.0, b.0, pre, t, junk, junk');
        NothingAfterTerminator(c, a.0, pre[k..], t, junk, junk', n - 1);
      }
    }
  }

  lemma {:induction false} EofReads(c: Cipher, r: Reader, n: nat)
    requires r.Valid() && r.eof
    ensures forall i :: 0 <= i < n ==> Reads(c, r, n)[i] == Eof
    decreases n
  {
    if n == 0 {
    } else {
      EofReads(c, r, n - 1);
    }
  }

  // ----- draining a half into a socket --------------------------------------------------------------

  /** `pump_ziti_to_sock`: chunks are copied out until end-of-stream or an error. */
  function Drain(c: Cipher, r: Reader): (res: (Bytes, Outcome))
    requires r.Valid()
    decreases |r.inbox|
  {
    var (next, o) := ReadOnce(c, r);
    match o
    case Chunk(b) => var (rest, last) := Drain(c, next); (b + rest, last)
    case Eof => ([], Eof)
    case Failed(e) => ([], Failed(e))
  }

  /** What a socket takes of some bytes when it fails after `room` of them, if ever. */
  function Taken(bytes: Bytes, room: Option<nat>): Bytes {
    if room.Some? && room.value < |bytes| then bytes[..room.value] else bytes
  }

  /**
   `pump_ziti_to_sock` into a socket that fails after `room` bytes, if ever: the socket has received the drained
   bytes, cut where it failed; and the copy ends as the drain does, unless it failed.
   */
  method PumpZitiToSock(half: EdgeReadHalf, room: Option<nat>) returns (written: Bytes, last: Outcome, sockFailed: bool)
    requires half.State().Valid()
    modifies half, half.sentFin
    ensures written == Taken(Drain(half.cipher, old(half.State())).0, room)
    ensures sockFailed <==> room.Some? && room.value < |Drain(half.cipher, old(half.State())).0|
    ensures !sockFailed ==> last == Drain(half.cipher, old(half.State())).1
  {
    written, sockFailed := [], false;
    Unit(Drain(half.cipher, half.State()).0);
    while true
      invariant half.State().Valid() && !sockFailed
      invariant room.Some? ==> |written| <= room.value
      invariant var d := Drain(half.cipher, half.State());
                Drain(half.cipher, old(half.State())) == (written + d.0, d.1)
      decreases |half.inbox|
    {
      ghost var soFar := written;
      last := half.Read();
      Unit(soFar);
      match last {
        case Chunk(b) =>
          ghost var rest := Drain(half.cipher, half.State()).0;
          Assoc(soFar, b, rest);
          if room.Some? && |written| + |b| > room.value {
            assert (soFar + (b + rest))[..room.value] == soFar + b[..room.value - |soFar|];
            return written + b[..room.value - |written|], last, true;
          }
          written := written + b;
        case Eof => return;
        case Failed(_) => return;
      }
    }
  }

  /** A socket with room takes everything; one that fails has taken the first `room` bytes. */
  lemma TakenIsPrefix(bytes: Bytes, room: Option<nat>)
    ensures Taken(bytes, room) <= bytes
    ensures room == None ==> Taken(bytes, room) == bytes
    ensures room.Some? ==>
              |Taken(bytes, room)| == if room.value < |bytes| then room.value else |bytes|
  {
  }

  /** A copy ends with the error of the first frame that cannot be opened, having written what came before. */
  lemma DrainStopsAtError(c: Cipher, r: Reader)
    requires r.Valid() && ReadOnce(c, r).1.Failed?
    ensures Drain(c, r) == ([], ReadOnce(c, r).1)
  {
  }

  lemma DrainGoesOn(c: Cipher, r: Reader)
    requires r.Valid() && ReadOnce(c, r).1.Chunk?
    ensures var (next, first) := ReadOnce(c, r);
            Drain(c, r) == (first.bytes + Drain(c, next).0, Drain(c, next).1)
  {
  }

  /** The frames up to and including the first one that ends the stream. */
  function LivePart(inbox: seq<Message>): seq<Message> {
    if inbox == [] then []
    else if Terminator(inbox[0]) then [inbox[0]]
    else [inbox[0]] + LivePart(inbox[1..])
  }

  function DataBodies(ms: seq<Message>): Bytes {
    if ms == [] then []
    else (if ms[0].contentType == CT_DATA then ms[0].body else []) + DataBodies(ms[1..])
  }

  /** On a plaintext connection the socket receives exactly the Data bodies of the live part, in order. */
  lemma {:induction false} DrainPlain(c: Cipher, inbox: seq<Message>)
    ensures Drain(c, Reader(inbox, false, None)) == (DataBodies(LivePart(inbox)), Eof)
    decreases |inbox|
  {
    var r := Reader(inbox, false, None);
    if inbox == [] {
    } else {
      var m := inbox[0];
      var rest := Reader(inbox[1..], false, None);
      DrainPlain(c, inbox[1..]);
      if Terminator(m) {
        assert DataBodies([m]) == (if m.contentType == CT_DATA then m.body else []);
        var ended := rest.(eof := true);
        assert Drain(c, ended) == ([], Eof);
      } else {
        HeadTail([m] + LivePart(inbox[1..]), []);
        Consumed(c, r, rest);
      }
    }
  }

  /** A frame that neither delivers nor ends anything is invisible to the drain. */
  lemma Consumed(c: Cipher, r: Reader, next: Reader)
    requires r.Valid() && next.Valid() && !r.eof && r.inbox != []
    requires Consume(c, r.(inbox := r.inbox[1..]), r.inbox[0]) == (next, Again)
          || exists b :: Consume(c, r.(inbox := r.inbox[1..]), r.inbox[0]) == (next, Stop(Chunk(b)))
    ensures var v := Consume(c, r.(inbox := r.inbox[1..]), r.inbox[0]).1;
            var (bytes, last) := Drain(c, next);
            Drain(c, r) == ((if v.Again? then [] else v.outcome.bytes) + bytes, last)
  {
    if Consume(c, r.(inbox := r.inbox[1..]), r.inbox[0]).1.Again? {
      Unit(Drain(c, next).0);
    }
  }
}
