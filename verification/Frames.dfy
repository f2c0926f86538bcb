/** Whole frames: marshalling, parsing a buffer, and reading frames off a byte stream. */
module Frames {
  import opened Base
  import opened Codec

  /** What `marshal_v2` asks of a message: every length field fits its 32-bit slot. */
  ghost predicate Marshallable(m: Message) {
    MapFits(m.headers) && MapSize(m.headers) < 0x1_0000_0000 && |m.body| < 0x1_0000_0000
  }

  /** The reader's cap, said of the message rather than of its bytes. */
  ghost predicate WithinCap(m: Message) {
    MapFits(m.headers) && MapSize(m.headers) + |m.body| <= MAX_DATA_SECTION
  }

  function Section(contentType: I32, sequence: I32, hlen: U32, blen: U32): (b: Bytes)
    ensures |b| == DATA_SECTION_V2
  {
    MAGIC_V2 + Le(ToUnsigned(contentType)) + Le(ToUnsigned(sequence)) + Le(hlen) + Le(blen)
  }

  ghost function Marshal(m: Message): (b: Bytes)
    requires Marshallable(m)
    ensures |b| == DATA_SECTION_V2 + MapSize(m.headers) + |m.body|
  {
    MapSizeEncodes(m.headers);
    var hdr := EncodeHeaders(m.headers);
    Section(m.contentType, m.sequence, |hdr|, |m.body|) + hdr + m.body
  }

  ghost function Restrict(m: map<I32, Bytes>, keys: set<I32>): (r: map<I32, Bytes>)
    requires keys <= m.Keys
    ensures r.Keys == keys && forall k :: k in keys ==> r[k] == m[k]
  {
    map k | k in keys :: m[k]
  }

  lemma SortedStep(m: map<I32, Bytes>, keys: set<I32>, k: I32)
    requires k in keys && keys <= m.Keys && forall x :: x in keys ==> k <= x
    ensures SortedEntries(Restrict(m, keys)) == [(k, m[k])] + SortedEntries(Restrict(m, keys - {k}))
  {
    assert MinOf(Restrict(m, keys).Keys) == k;
    assert Restrict(m, keys) - {k} == Restrict(m, keys - {k});
  }

  method LeastKey(keys: set<I32>) returns (k: I32)
    requires keys != {}
    ensures k in keys && forall x :: x in keys ==> k <= x
  {
    ghost var least := MinOf(keys);
    assert least in keys && forall x :: x in keys ==> least <= x;
    k :| k in keys && forall x :: x in keys ==> k <= x;
  }

  /** The header loop of `marshal_v2`: the map is visited in ascending key order. */
  method MarshalHeaders(headers: map<I32, Bytes>) returns (hdr: Bytes)
    requires MapFits(headers)
    ensures hdr == EncodeHeaders(headers)
  {
    hide Le, EncodeEntry;
    hdr := [];
    var todo := headers.Keys;
    ghost var done: seq<Entry> := [];
    assert Restrict(headers, todo) == headers;
    Unit(SortedEntries(headers));
    assert EncodeEntries([]) == [];
    hide Restrict, SortedEntries, EncodeEntries;
    while todo != {}
      invariant todo <= headers.Keys
      invariant EntriesFit(done) && hdr == EncodeEntries(done)
      invariant SortedEntries(headers) == done + SortedEntries(Restrict(headers, todo))
      decreases |todo|
    {
      var k := LeastKey(todo);
      SortedStep(headers, todo, k);
      ghost var e := (k, headers[k]);
      EncodeAppend(done, [e]);
      EncodeOne(e);
      Assoc(done, [e], SortedEntries(Restrict(headers, todo - {k})));
      hdr := hdr + EncodeEntry((k, headers[k]));
      done := done + [e];
      todo := todo - {k};
    }
    NoneLeft(headers);
    Unit(done);
  }

  lemma NoneLeft(headers: map<I32, Bytes>)
    ensures SortedEntries(Restrict(headers, {})) == []
  {
    assert Restrict(headers, {}) == map[];
  }

  /** `marshal_v2`. */
  method MarshalV2(m: Message) returns (out: Bytes)
    requires Marshallable(m)
    ensures out == Marshal(m)
  {
    MapSizeEncodes(m.headers);
    var hdr := MarshalHeaders(m.headers);
    out := Section(m.contentType, m.sequence, |hdr|, |m.body|) + hdr + m.body;
  }

  /** `frame_lengths`: magic, lengths and the size cap. The sum saturates at 32 bits, as in the source. */
  function FrameLengths(section: Bytes): (r: Result<(U32, U32), FrameError>)
  {
    if |section| < DATA_SECTION_V2 then Err(ShortSection)
    else if section[0..4] == MAGIC_UNKNOWN_VERSION then Err(UnknownVersion)
    else if section[0..4] != MAGIC_V2 then Err(BadMagic)
    else
      var hlen := FromLe(section[12..16]);
      var blen := FromLe(section[16..20]);
      var sum := if hlen + blen < 0x1_0000_0000 then hlen + blen else 0xFFFF_FFFF;
      if sum > MAX_DATA_SECTION then Err(TooLarge) else Ok((hlen, blen))
  }

  function ParseFrame(full: Bytes): (r: Result<Message, FrameError>)
  {
    match FrameLengths(full)
    case Err(e) => Err(e)
    case Ok((hlen, blen)) =>
      var total := DATA_SECTION_V2 + hlen + blen;
      if |full| < total then Err(ShortFrame)
      else match HeadersOf(full[DATA_SECTION_V2..DATA_SECTION_V2 + hlen])
        case Err(e) => Err(e)
        case Ok(headers) =>
          Ok(Message(ToSigned(FromLe(full[4..8])), ToSigned(FromLe(full[8..12])),
                     headers, full[DATA_SECTION_V2 + hlen..total]))
  }

  /** The fields of the fixed section, read back out of any buffer that starts with it. */
  lemma SectionFields(ct: I32, sq: I32, hlen: U32, blen: U32, rest: Bytes)
    ensures var s := Section(ct, sq, hlen, blen) + rest;
            && s[0..4] == MAGIC_V2
            && ToSigned(FromLe(s[4..8])) == ct
            && ToSigned(FromLe(s[8..12])) == sq
            && FromLe(s[12..16]) == hlen
            && FromLe(s[16..20]) == blen
            && s[20..] == rest
  {
    hide Le, FromLe;
    var s := Section(ct, sq, hlen, blen) + rest;
    FromLeLe(ToUnsigned(ct));
    FromLeLe(ToUnsigned(sq));
    FromLeLe(hlen);
    FromLeLe(blen);
    assert s[4..8] == Le(ToUnsigned(ct));
    assert s[8..12] == Le(ToUnsigned(sq));
    assert s[12..16] == Le(hlen);
    assert s[16..20] == Le(blen);
    assert s[0..4] == MAGIC_V2;
  }

  /**
   Parsing a marshalled message followed by anything returns the message when it is within the cap, and
   refuses it as too large otherwise.
   */
  lemma ParseMarshal(m: Message, rest: Bytes)
    requires Marshallable(m)
    ensures ParseFrame(Marshal(m) + rest) == if WithinCap(m) then Ok(m) else Err(TooLarge)
  {
    hide Le, FromLe, HeadersOf, EncodeHeaders, Section;
    MapSizeEncodes(m.headers);
    HeadersRoundTrip(m.headers);
    var hdr := EncodeHeaders(m.headers);
    var section := Section(m.contentType, m.sequence, |hdr|, |m.body|);
    var full := Marshal(m) + rest;
    FrameLayout(section, hdr, m.body, rest);
    SectionFields(m.contentType, m.sequence, |hdr|, |m.body|, hdr + m.body + rest);
    assert MAGIC_V2 != MAGIC_UNKNOWN_VERSION by { assert MAGIC_V2[3] != MAGIC_UNKNOWN_VERSION[3]; }
    assert full == section + (hdr + m.body + rest);
  }

  lemma FrameLayout(section: Bytes, hdr: Bytes, body: Bytes, rest: Bytes)
    requires |section| == DATA_SECTION_V2
    ensures var full := section + hdr + body + rest;
            && full == section + (hdr + body + rest)
            && full[20..20 + |hdr|] == hdr
            && full[20 + |hdr|..20 + |hdr| + |body|] == body
            && full[..20 + |hdr| + |body|] == section + hdr + body
            && full[20 + |hdr| + |body|..] == rest
  {
  }

  /** A frame is never a prefix of another, and no two messages share a frame. */
  lemma MarshalPrefixFree(a: Message, b: Message, restA: Bytes, restB: Bytes)
    requires Marshallable(a) && Marshallable(b) && WithinCap(a) && WithinCap(b)
    requires Marshal(a) + restA == Marshal(b) + restB
    ensures a == b && restA == restB
  {
    ParseMarshal(a, restA);
    ParseMarshal(b, restB);
    assert restA == (Marshal(a) + restA)[|Marshal(a)|..];
    assert restB == (Marshal(b) + restB)[|Marshal(b)|..];
  }

  /**
   Whatever buffer parses, its message is within the cap, its canonical header section is no longer than
   the one that was read, and re-marshalling it (before anything) parses back to the same message.
   */
  lemma ReparseStable(buf: Bytes, rest: Bytes)
    requires ParseFrame(buf).Ok?
    ensures var m := ParseFrame(buf).value;
            && Marshallable(m) && WithinCap(m)
            && MapSize(m.headers) <= FromLe(buf[12..16])
            && |Marshal(m)| <= |buf|
            && ParseFrame(Marshal(m) + rest) == Ok(m)
  {
    var hlen := FromLe(buf[12..16]);
    var m := ParseFrame(buf).value;
    var section := buf[20..20 + hlen];
    EncodeDecode(section);
    CollapseNeverGrows(DecodeEntries(section).value);
    ParseMarshal(m, rest);
  }

  // ----- frames on a byte stream -----------------------------------------------------------------

  /** A stream that will deliver `pending` and then end. */
  class ByteStream {
    var pending: Bytes

    constructor (bytes: Bytes)
      ensures pending == bytes
    {
      pending := bytes;
    }

    /** `read_exact`: all `n` bytes, or an error that has drained what was there. */
    method ReadExact(n: nat) returns (r: Result<Bytes, ReadError>)
      modifies this
      ensures n <= |old(pending)| ==> r == Ok(old(pending)[..n]) && pending == old(pending)[n..]
      ensures n > |old(pending)| ==> r == Err(Io) && pending == []
    {
      if n <= |pending| {
        r := Ok(pending[..n]);
        pending := pending[n..];
      } else {
        r := Err(Io);
        pending := [];
      }
    }

    /**
     `write_message`, of which the transport takes `room` bytes before it fails, if ever: a failed write leaves a
     proper prefix of the frame behind, a failed flush the whole of it.
     */
    method WriteMessage(m: Message, room: nat, flushOk: bool) returns (r: Result<(), ReadError>)
      requires Marshallable(m)
      modifies this
      ensures r == if room >= |Marshal(m)| && flushOk then Ok(()) else Err(Io)
      ensures pending == old(pending) + if room >= |Marshal(m)| then Marshal(m) else Marshal(m)[..room]
    {
      var bytes := MarshalV2(m);
      if room < |bytes| {
        pending := pending + bytes[..room];
        return Err(Io);
      }
      pending := pending + bytes;
      return if flushOk then Ok(()) else Err(Io);
    }

    /** `read_message`: the fixed section first, then exactly the bytes it announces. */
    method ReadMessage() returns (r: Result<Message, ReadError>)
      modifies this
      ensures (r, pending) == ReadOne(old(pending))
    {
      hide FrameLengths, ParseFrame;
      ghost var before := pending;
      var section := ReadExact(DATA_SECTION_V2);
      if section.Err? {
        return Err(section.error);
      }
      var lengths := FrameLengths(section.value);
      FrameLengthsPrefix(before);
      if lengths.Err? {
        return Err(Frame(lengths.error));
      }
      var rest := ReadExact(lengths.value.0 + lengths.value.1);
      if rest.Err? {
        return Err(rest.error);
      }
      ghost var total := DATA_SECTION_V2 + lengths.value.0 + lengths.value.1;
      assert section.value + rest.value == before[..total];
      assert pending == before[total..];
      var m := ParseFrame(section.value + rest.value);
      r := match m case Ok(v) => Ok(v) case Err(e) => Err(Frame(e));
    }

    /** The receive loop of a channel: frames are taken until the first read error. */
    method ReadAll() returns (ms: seq<Message>)
      modifies this
      ensures ms == ReadFrames(old(pending))
    {
      ms := [];
      var going := true;
      while going
        invariant going ==> ReadFrames(old(pending)) == ms + ReadFrames(pending)
        invariant !going ==> ReadFrames(old(pending)) == ms
        decreases going, |pending|
      {
        ghost var before := pending;
        var r := ReadMessage();
        ReadOneConsumes(before);
        if r.Err? {
          assert ReadFrames(before) == [];
          going := false;
        } else {
          assert ReadFrames(before) == [r.value] + ReadFrames(pending);
          ms := ms + [r.value];
        }
      }
    }
  }

  /** One `read_message` on a stream holding `s`: its result and what is left. */
  function ReadOne(s: Bytes): (r: (Result<Message, ReadError>, Bytes))
  {
    if |s| < DATA_SECTION_V2 then (Err(Io), [])
    else match FrameLengths(s)
      case Err(e) => (Err(Frame(e)), s[DATA_SECTION_V2..])
      case Ok((hlen, blen)) =>
        var total := DATA_SECTION_V2 + hlen + blen;
        if |s| < total then (Err(Io), [])
        else match ParseFrame(s[..total])
          case Ok(m) => (Ok(m), s[total..])
          case Err(e) => (Err(Frame(e)), s[total..])
  }

  lemma FrameLengthsPrefix(s: Bytes)
    ensures |s| >= DATA_SECTION_V2 ==> FrameLengths(s[..DATA_SECTION_V2]) == FrameLengths(s)
    ensures |s| >= DATA_SECTION_V2 && FrameLengths(s).Ok? ==>
              FrameLengths(s).value.0 + FrameLengths(s).value.1 <= MAX_DATA_SECTION
  {
    if |s| >= DATA_SECTION_V2 {
      var p := s[..DATA_SECTION_V2];
      assert p[0..4] == s[0..4] && p[12..16] == s[12..16] && p[16..20] == s[16..20];
    }
  }

  lemma ReadOneConsumes(s: Bytes)
    ensures ReadOne(s).0.Ok? ==> |ReadOne(s).1| < |s|
  {
  }

  function ReadFrames(s: Bytes): (ms: seq<Message>)
    decreases |s|
  {
    ReadOneConsumes(s);
    var (r, rest) := ReadOne(s);
    if r.Err? then [] else [r.value] + ReadFrames(rest)
  }

  ghost predicate Sendable(ms: seq<Message>) {
    forall i :: 0 <= i < |ms| ==> Marshallable(ms[i]) && WithinCap(ms[i])
  }

  ghost function MarshalAll(ms: seq<Message>): (b: Bytes)
    requires Sendable(ms)
  {
    if ms == [] then [] else Marshal(ms[0]) + MarshalAll(ms[1..])
  }

  lemma ReadOneFrame(m: Message, rest: Bytes)
    requires Marshallable(m) && WithinCap(m)
    ensures ReadOne(Marshal(m) + rest) == (Ok(m), rest)
  {
    hide Le, FromLe, ParseFrame, EncodeHeaders, Section;
    var s := Marshal(m) + rest;
    MapSizeEncodes(m.headers);
    var hdr := EncodeHeaders(m.headers);
    var section := Section(m.contentType, m.sequence, |hdr|, |m.body|);
    FrameLayout(section, hdr, m.body, rest);
    assert s == section + (hdr + m.body + rest);
    SectionFields(m.contentType, m.sequence, |hdr|, |m.body|, hdr + m.body + rest);
    assert MAGIC_V2 != MAGIC_UNKNOWN_VERSION by { assert MAGIC_V2[3] != MAGIC_UNKNOWN_VERSION[3]; }
    Unit(Marshal(m));
    ParseMarshal(m, []);
  }

  /** Reading a stream of frames back to back recovers exactly the messages, in order. */
  lemma {:induction false} ReadFramesMarshalAll(ms: seq<Message>)
    requires Sendable(ms)
    ensures ReadFrames(MarshalAll(ms)) == ms
  {
    if ms == [] {
    } else {
      ReadOneFrame(ms[0], MarshalAll(ms[1..]));
      ReadFramesMarshalAll(ms[1..]);
      assert ms == [ms[0]] + ms[1..];
    }
  }

  // ----- the bytes themselves ------------------------------------------------------------------

  /** A frame by position: magic, four little-endian words, the header section, the body. */
  lemma FrameBytes(m: Message)
    requires Marshallable(m)
    ensures var b := Marshal(m);
            var hlen := MapSize(m.headers);
            && |b| == 20 + hlen + |m.body|
            && b[0] == 0x03 && b[1] == 0x06 && b[2] == 0x09 && b[3] == 0x0c
            && b[4] + 0x100 * b[5] as int + 0x1_0000 * b[6] as int + 0x100_0000 * b[7] as int
               == (if m.contentType < 0 then m.contentType + 0x1_0000_0000 else m.contentType)
            && b[8] + 0x100 * b[9] as int + 0x1_0000 * b[10] as int + 0x100_0000 * b[11] as int
               == (if m.sequence < 0 then m.sequence + 0x1_0000_0000 else m.sequence)
            && b[12] + 0x100 * b[13] as int + 0x1_0000 * b[14] as int + 0x100_0000 * b[15] as int == hlen
            && b[16] + 0x100 * b[17] as int + 0x1_0000 * b[18] as int + 0x100_0000 * b[19] as int == |m.body|
            && b[20..20 + hlen] == EncodeHeaders(m.headers) && b[20 + hlen..] == m.body
  {
    hide Section, EncodeHeaders, Le, MapSize, MapFits;
    MapSizeEncodes(m.headers);
    var hdr := EncodeHeaders(m.headers);
    var section := Section(m.contentType, m.sequence, |hdr|, |m.body|);
    SectionBytes(m.contentType, m.sequence, |hdr|, |m.body|);
    FrameParts(section, hdr, m.body);
  }

  lemma FrameParts(section: Bytes, hdr: Bytes, body: Bytes)
    requires |section| == 20
    ensures var b := section + hdr + body;
            && (forall k :: 0 <= k < 20 ==> b[k] == section[k])
            && b[20..20 + |hdr|] == hdr && b[20 + |hdr|..] == body
  {
  }

  lemma SectionBytes(contentType: I32, sequence: I32, hlen: U32, blen: U32)
    ensures var b := Section(contentType, sequence, hlen, blen);
            && b[0] == 0x03 && b[1] == 0x06 && b[2] == 0x09 && b[3] == 0x0c
            && b[4] + 0x100 * b[5] as int + 0x1_0000 * b[6] as int + 0x100_0000 * b[7] as int
               == (if contentType < 0 then contentType + 0x1_0000_0000 else contentType)
            && b[8] + 0x100 * b[9] as int + 0x1_0000 * b[10] as int + 0x100_0000 * b[11] as int
               == (if sequence < 0 then sequence + 0x1_0000_0000 else sequence)
            && b[12] + 0x100 * b[13] as int + 0x1_0000 * b[14] as int + 0x100_0000 * b[15] as int == hlen
            && b[16] + 0x100 * b[17] as int + 0x1_0000 * b[18] as int + 0x100_0000 * b[19] as int == blen
  {
    LeBytes(ToUnsigned(contentType));
    LeBytes(ToUnsigned(sequence));
    LeBytes(hlen);
    LeBytes(blen);
    hide Le;
  }

  /** The header entries of a frame: the map in ascending key order, each where the ones before it end. */
  lemma FrameHeaders(m: Message, i: nat)
    requires Marshallable(m) && i < |m.headers|
    ensures var es := SortedEntries(m.headers);
            var o := 20 + OffsetOf(es, i);
            && |es| == |m.headers| && es[i].0 in m.headers && es[i].1 == m.headers[es[i].0]
            && (forall j :: 0 <= j < i ==> es[j].0 < es[i].0)
            && o + 8 + |es[i].1| <= |Marshal(m)| && Marshal(m)[o..o + 8 + |es[i].1|] == EncodeEntry(es[i])
  {
    hide EncodeEntry, Section, SortedEntries;
    var es := SortedEntries(m.headers);
    EntriesAt(es, i);
    MapSizeEncodes(m.headers);
    FrameBytes(m);
    var o, n := OffsetOf(es, i), 8 + |es[i].1|;
    SliceOfSlice(Marshal(m), 20, 20 + MapSize(m.headers), o, o + n);
  }

  lemma SliceOfSlice<T>(xs: seq<T>, lo: nat, hi: nat, a: nat, b: nat)
    requires lo <= hi <= |xs| && a <= b <= hi - lo
    ensures xs[lo..hi][a..b] == xs[lo + a..lo + b]
  {
    var inner := xs[lo..hi];
    assert forall k :: 0 <= k < b - a ==> inner[a..b][k] == inner[a + k] && inner[a + k] == xs[lo + a + k];
  }

  /** Which buffers are refused before their headers are looked at, and why. */
  lemma FrameRefusals(b: Bytes)
    ensures |b| < 20 ==> ParseFrame(b) == Err(ShortSection)
    ensures |b| >= 20 && b[0] == 3 && b[1] == 6 && b[2] == 9 && b[3] == 10 ==> ParseFrame(b) == Err(UnknownVersion)
    ensures |b| >= 20 && !(b[0] == 3 && b[1] == 6 && b[2] == 9 && (b[3] == 10 || b[3] == 12)) ==>
              ParseFrame(b) == Err(BadMagic)
    ensures |b| >= 20 && b[0] == 3 && b[1] == 6 && b[2] == 9 && b[3] == 12 ==>
              var hlen := b[12] + 0x100 * b[13] as int + 0x1_0000 * b[14] as int + 0x100_0000 * b[15] as int;
              var blen := b[16] + 0x100 * b[17] as int + 0x1_0000 * b[18] as int + 0x100_0000 * b[19] as int;
              && (hlen + blen > 1048576 ==> ParseFrame(b) == Err(TooLarge))
              && (hlen + blen <= 1048576 && |b| < 20 + hlen + blen ==> ParseFrame(b) == Err(ShortFrame))
  {
    if |b| >= 20 {
      FromLeBytes(b[12..16]);
      FromLeBytes(b[16..20]);
      assert b[0..4] == [b[0], b[1], b[2], b[3]];
    }
    hide FromLe, HeadersOf;
  }

  /** The cap in numbers. */
  lemma CapIs(m: Message, rest: Bytes)
    requires Marshallable(m)
    ensures ParseFrame(Marshal(m) + rest).Ok? <==> MapSize(m.headers) + |m.body| <= 1048576
  {
    hide ParseFrame, Marshal;
    ParseMarshal(m, rest);
    assert WithinCap(m) <==> MapSize(m.headers) + |m.body| <= 1048576;
  }

  /** Whole frames are read off the front of whatever follows them. */
  lemma {:induction false} FramesThenRest(ms: seq<Message>, rest: Bytes)
    requires Sendable(ms)
    ensures ReadFrames(MarshalAll(ms) + rest) == ms + ReadFrames(rest)
  {
    hide Marshal, ReadOne, Marshallable, WithinCap;
    if ms == [] {
      Unit(rest);
      Unit(ReadFrames(rest));
    } else {
      Assoc(Marshal(ms[0]), MarshalAll(ms[1..]), rest);
      ReadOneFrame(ms[0], MarshalAll(ms[1..]) + rest);
      FramesThenRest(ms[1..], rest);
      HeadTail(ms, ReadFrames(rest));
    }
  }

  /** What a stream that does not start with the magic gives: its error, and no frame however much follows. */
  lemma BadMagicEnds(s: Bytes)
    requires |s| >= 20 && !(s[0] == 3 && s[1] == 6 && s[2] == 9 && s[3] == 12)
    ensures ReadOne(s) == (Err(Frame(if s[0] == 3 && s[1] == 6 && s[2] == 9 && s[3] == 10 then UnknownVersion
                                     else BadMagic)), s[20..])
    ensures ReadFrames(s) == []
  {
    assert s[0..4] == [s[0], s[1], s[2], s[3]];
    hide FromLe, ParseFrame;
  }

  /** A frame cut anywhere is no frame: the read fails and the stream is drained. */
  lemma CutFrameEnds(m: Message, n: nat)
    requires Marshallable(m) && WithinCap(m) && n < |Marshal(m)|
    ensures ReadOne(Marshal(m)[..n]) == (Err(Io), []) && ReadFrames(Marshal(m)[..n]) == []
  {
    var s := Marshal(m)[..n];
    if n >= 20 {
      FrameBytes(m);
      FromLeBytes(s[12..16]);
      FromLeBytes(s[16..20]);
      assert s[0..4] == MAGIC_V2;
      assert MAGIC_V2 != MAGIC_UNKNOWN_VERSION by { assert MAGIC_V2[3] != MAGIC_UNKNOWN_VERSION[3]; }
    }
    hide FromLe, ParseFrame, Marshal;
  }
}
