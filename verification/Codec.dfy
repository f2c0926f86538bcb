/**
 The V2 frame codec: a fixed 20-byte little-endian section, a TLV header section and a body.
 `headers` is a `BTreeMap`, so marshalling visits it in ascending key order.
 */
module Codec {
  import opened Base

  const MAGIC_V2: Bytes := [0x03, 0x06, 0x09, 0x0c]
  const MAGIC_UNKNOWN_VERSION: Bytes := [0x03, 0x06, 0x09, 0x0a]
  const DATA_SECTION_V2 := 20
  const MAX_DATA_SECTION := 0x10_0000

  datatype Message = Message(contentType: I32, sequence: I32, headers: map<I32, Bytes>, body: Bytes)

  datatype FrameError =
    | ShortSection
    | UnknownVersion
    | BadMagic
    | TooLarge
    | ShortFrame
    | TruncatedMeta
    | TruncatedData

  datatype ReadError = Io | Frame(frame: FrameError)

  // ----- the header section -------------------------------------------------------------------

  type Entry = (I32, Bytes)

  /** One TLV entry as it stands on the wire. */
  function EncodeEntry(e: Entry): (b: Bytes)
    requires |e.1| < 0x1_0000_0000
  {
    Le(ToUnsigned(e.0)) + Le(|e.1|) + e.1
  }

  predicate EntriesFit(es: seq<Entry>) {
    forall i :: 0 <= i < |es| ==> |es[i].1| < 0x1_0000_0000
  }

  /** Any sequence of entries, in any order and with any repetition, laid out on the wire. */
  function EncodeEntries(es: seq<Entry>): (b: Bytes)
    requires EntriesFit(es)
  {
    if es == [] then [] else EncodeEntry(es[0]) + EncodeEntries(es[1..])
  }

  /** The map a reader ends with: a later entry with the same key wins. */
  function Collapse(es: seq<Entry>): (m: map<I32, Bytes>) {
    if es == [] then map[] else Collapse(es[..|es| - 1])[es[|es| - 1].0 := es[|es| - 1].1]
  }

  /** Undoes `EncodeEntries`, entry by entry. */
  function DecodeEntries(d: Bytes): (r: Result<seq<Entry>, FrameError>)
    ensures r.Ok? ==> EntriesFit(r.value)
    decreases |d|
  {
    if d == [] then Ok([])
    else if |d| < 8 then Err(TruncatedMeta)
    else
      var len := FromLe(d[4..8]);
      if 8 + len > |d| then Err(TruncatedData)
      else match DecodeEntries(d[8 + len..])
        case Err(e) => Err(e)
        case Ok(es) => Ok([(ToSigned(FromLe(d[..4])), d[8..8 + len])] + es)
  }

  lemma {:induction false} EncodeAppend(xs: seq<Entry>, ys: seq<Entry>)
    requires EntriesFit(xs) && EntriesFit(ys)
    ensures EntriesFit(xs + ys)
    ensures EncodeEntries(xs + ys) == EncodeEntries(xs) + EncodeEntries(ys)
  {
    hide EncodeEntry;
    if xs == [] {
      Unit(ys);
      Unit(EncodeEntries(ys));
    } else {
      EncodeAppend(xs[1..], ys);
      HeadTail(xs, ys);
      Assoc(EncodeEntry(xs[0]), EncodeEntries(xs[1..]), EncodeEntries(ys));
    }
  }

  /** The first entry of a section is read back whole, whatever follows it. */
  lemma DecodeHead(e: Entry, rest: Bytes)
    requires |e.1| < 0x1_0000_0000
    ensures DecodeEntries(EncodeEntry(e) + rest) ==
            match DecodeEntries(rest) { case Ok(es) => Ok([e] + es) case Err(x) => Err(x) }
  {
    hide Le, FromLe;
    var d := EncodeEntry(e) + rest;
    var len := |e.1|;
    FromLeLe(ToUnsigned(e.0));
    FromLeLe(len);
    assert d[..4] == Le(ToUnsigned(e.0));
    assert d[4..8] == Le(len);
    assert d[8..8 + len] == e.1;
    assert d[8 + len..] == rest;
  }

  lemma {:induction false} DecodeEncode(es: seq<Entry>)
    requires EntriesFit(es)
    ensures DecodeEntries(EncodeEntries(es)) == Ok(es)
  {
    hide EncodeEntry;
    if es == [] {
    } else {
      DecodeEncode(es[1..]);
      DecodeHead(es[0], EncodeEntries(es[1..]));
      HeadTail(es, []);
    }
  }

  lemma {:induction false} EncodeDecode(d: Bytes)
    requires DecodeEntries(d).Ok?
    ensures EncodeEntries(DecodeEntries(d).value) == d
    decreases |d|
  {
    hide Le, FromLe, EncodeEntry;
    if d == [] {
    } else {
      var len := FromLe(d[4..8]);
      var tail := DecodeEntries(d[8 + len..]).value;
      var e := (ToSigned(FromLe(d[..4])), d[8..8 + len]);
      EncodeDecode(d[8 + len..]);
      EncodeHead(d, len);
      HeadTail([e] + tail, []);
      TakeDrop(d, 8 + len as int);
    }
  }

  lemma EncodeHead(d: Bytes, len: U32)
    requires |d| >= 8 + len && FromLe(d[4..8]) == len
    ensures EncodeEntry((ToSigned(FromLe(d[..4])), d[8..8 + len])) == d[..8 + len]
  {
    hide Le, FromLe;
    LeFromLe(d[..4]);
    LeFromLe(d[4..8]);
    assert d[..4] + d[4..8] + d[8..8 + len] == d[..8 + len];
  }

  /** A well-formed prefix is consumed whole, whatever follows it. */
  lemma {:induction false} DecodeAppend(es: seq<Entry>, d: Bytes)
    requires EntriesFit(es)
    ensures DecodeEntries(EncodeEntries(es) + d) ==
            match DecodeEntries(d) { case Ok(tail) => Ok(es + tail) case Err(e) => Err(e) }
  {
    hide EncodeEntry;
    if es == [] {
      Unit(d);
      if DecodeEntries(d).Ok? {
        Unit(DecodeEntries(d).value);
      }
    } else {
      DecodeAppend(es[1..], d);
      DecodeHead(es[0], EncodeEntries(es[1..]) + d);
      Assoc(EncodeEntry(es[0]), EncodeEntries(es[1..]), d);
      if DecodeEntries(d).Ok? {
        HeadTail(es, DecodeEntries(d).value);
      }
    }
  }

  /**
   `parse_headers`: succeeds exactly on the buffers some entry sequence encodes to, and then yields that
   sequence collapsed, the last of each key.
   */
  method ParseHeaders(data: Bytes) returns (r: Result<map<I32, Bytes>, FrameError>)
    ensures r == HeadersOf(data)
    ensures r.Ok? <==> exists es :: EntriesFit(es) && EncodeEntries(es) == data
    ensures forall es :: EntriesFit(es) && EncodeEntries(es) == data ==> r == Ok(Collapse(es))
  {
    hide Le, FromLe, EncodeEntry, ToSigned;
    var out: map<I32, Bytes> := map[];
    var i := 0;
    ghost var done: seq<Entry> := [];
    while i < |data|
      invariant 0 <= i <= |data|
      invariant EntriesFit(done) && data[..i] == EncodeEntries(done)
      invariant out == Collapse(done)
    {
      TakeDrop(data, i);
      DecodeAppend(done, data[i..]);
      if i + 8 > |data| {
        HeadersOfGrammar(data);
        return Err(TruncatedMeta);
      }
      SliceOfDrop(data, i, 0, 4);
      SliceOfDrop(data, i, 4, 8);
      var key := ToSigned(FromLe(data[i..i + 4]));
      var len := FromLe(data[i + 4..i + 8]);
      if i + 8 + len > |data| {
        HeadersOfGrammar(data);
        return Err(TruncatedData);
      }
      var value := data[i + 8..i + 8 + len];
      ExtendPrefix(data, i, done, len);
      out := out[key := value];
      done := done + [(key, value)];
      i := i + 8 + len;
    }
    assert data[..i] == data;
    DecodeEncode(done);
    HeadersOfGrammar(data);
    return Ok(out);
  }

  lemma ExtendPrefix(data: Bytes, i: nat, done: seq<Entry>, len: U32)
    requires i + 8 + len <= |data| && FromLe(data[i + 4..i + 8]) == len
    requires EntriesFit(done) && data[..i] == EncodeEntries(done)
    ensures var e := (ToSigned(FromLe(data[i..i + 4])), data[i + 8..i + 8 + len]);
            && EntriesFit(done + [e])
            && data[..i + 8 + len] == EncodeEntries(done + [e])
            && Collapse(done + [e]) == Collapse(done)[e.0 := e.1]
  {
    hide Le, FromLe, EncodeEntry, EncodeEntries, Collapse;
    var e := (ToSigned(FromLe(data[i..i + 4])), data[i + 8..i + 8 + len]);
    var d := data[i..];
    SliceOfDrop(data, i, 0, 4);
    SliceOfDrop(data, i, 4, 8);
    SliceOfDrop(data, i, 8, 8 + len);
    SliceOfDrop(data, i, 0, 8 + len);
    EncodeHead(d, len);
    EncodeAppend(done, [e]);
    EncodeOne(e);
    SplitSlice(data, i, i + 8 + len);
    CollapseSnoc(done, e);
  }

  lemma EncodeOne(e: Entry)
    requires |e.1| < 0x1_0000_0000
    ensures EncodeEntries([e]) == EncodeEntry(e)
  {
    hide EncodeEntry;
    Unit(EncodeEntry(e));
  }

  lemma CollapseSnoc(es: seq<Entry>, e: Entry)
    ensures Collapse(es + [e]) == Collapse(es)[e.0 := e.1]
  {
    Snoc(es, e);
  }

  function HeadersOf(data: Bytes): (r: Result<map<I32, Bytes>, FrameError>) {
    match DecodeEntries(data)
    case Ok(es) => Ok(Collapse(es))
    case Err(e) => Err(e)
  }

  lemma HeadersOfGrammar(data: Bytes)
    ensures HeadersOf(data).Ok? <==> exists es :: EntriesFit(es) && EncodeEntries(es) == data
    ensures forall es :: EntriesFit(es) && EncodeEntries(es) == data ==> HeadersOf(data) == Ok(Collapse(es))
  {
    if HeadersOf(data).Ok? {
      EncodeDecode(data);
    }
    forall es | EntriesFit(es) && EncodeEntries(es) == data
      ensures HeadersOf(data) == Ok(Collapse(es))
    {
      DecodeEncode(es);
    }
  }

  // ----- the canonical (sorted) header section -------------------------------------------------

  predicate MapFits(m: map<I32, Bytes>) {
    forall k :: k in m ==> |m[k]| < 0x1_0000_0000
  }

  /** The entries of a header map in `BTreeMap` order. */
  ghost function SortedEntries(m: map<I32, Bytes>): (es: seq<Entry>)
    ensures |es| == |m|
    ensures forall i :: 0 <= i < |es| ==> es[i].0 in m && es[i].1 == m[es[i].0]
    ensures forall i, j :: 0 <= i < j < |es| ==> es[i].0 < es[j].0
    ensures MapFits(m) ==> EntriesFit(es)
    decreases |m|
  {
    if m == map[] then []
    else
      var k := MinOf(m.Keys);
      assert |(m - {k}).Keys| == |m.Keys - {k}| by { assert (m - {k}).Keys == m.Keys - {k}; }
      [(k, m[k])] + SortedEntries(m - {k})
  }

  lemma {:induction false} CollapsePrepend(e: Entry, es: seq<Entry>)
    ensures Collapse([e] + es) == map[e.0 := e.1] + Collapse(es)
  {
    var all := [e] + es;
    if es == [] {
      assert all[..0] == [];
      assert Collapse(all) == map[e.0 := e.1];
    } else {
      var last := es[|es| - 1];
      assert all[..|all| - 1] == [e] + es[..|es| - 1];
      CollapsePrepend(e, es[..|es| - 1]);
    }
  }

  lemma SortedHead(m: map<I32, Bytes>, k: I32)
    requires m != map[] && k == MinOf(m.Keys)
    ensures SortedEntries(m) == [(k, m[k])] + SortedEntries(m - {k})
  {
  }

  lemma WithoutOne(m: map<I32, Bytes>, k: I32)
    requires k in m
    ensures |m - {k}| < |m| && map[k := m[k]] + (m - {k}) == m
  {
    assert (m - {k}).Keys == m.Keys - {k};
    assert |m.Keys - {k}| < |m.Keys|;
  }

  lemma {:induction false} CollapseSorted(m: map<I32, Bytes>)
    ensures Collapse(SortedEntries(m)) == m
    decreases |m|
  {
    if m == map[] {
    } else {
      hide *;
      var k: I32 := MinOf(m.Keys);
      WithoutOne(m, k);
      SortedHead(m, k);
      CollapseSorted(m - {k});
      CollapsePrepend((k, m[k]), SortedEntries(m - {k}));
    }
  }

  ghost function EncodeHeaders(m: map<I32, Bytes>): (b: Bytes)
    requires MapFits(m)
  {
    EncodeEntries(SortedEntries(m))
  }

  lemma HeadersRoundTrip(m: map<I32, Bytes>)
    requires MapFits(m)
    ensures HeadersOf(EncodeHeaders(m)) == Ok(m)
  {
    DecodeEncode(SortedEntries(m));
    CollapseSorted(m);
  }

  /** Key order on the wire does not matter when no key repeats: any permutation reads as the same map. */
  lemma {:induction false} HeaderOrderIrrelevant(xs: seq<Entry>, ys: seq<Entry>)
    requires EntriesFit(xs) && EntriesFit(ys)
    requires multiset(xs) == multiset(ys)
    requires DistinctKeys(xs)
    ensures HeadersOf(EncodeEntries(xs)) == HeadersOf(EncodeEntries(ys))
  {
    DecodeEncode(xs);
    DecodeEncode(ys);
    PermutationDistinct(xs, ys);
    SameCollapse(xs, ys);
  }

  predicate DistinctKeys(es: seq<Entry>) {
    forall i, j :: 0 <= i < j < |es| ==> es[i].0 != es[j].0
  }

  lemma PermutationDistinct(xs: seq<Entry>, ys: seq<Entry>)
    requires multiset(xs) == multiset(ys) && DistinctKeys(xs)
    ensures DistinctKeys(ys)
  {
    forall i, j | 0 <= i < j < |ys|
      ensures ys[i].0 != ys[j].0
    {
      assert ys[i] in multiset(ys) && ys[j] in multiset(ys);
      assert ys[i] in xs && ys[j] in xs;
      if ys[i] == ys[j] {
        DuplicateCount(ys, i, j);
        OnceCount(xs, ys[i]);
      }
    }
  }

  lemma SameCollapse(xs: seq<Entry>, ys: seq<Entry>)
    requires multiset(xs) == multiset(ys) && DistinctKeys(xs) && DistinctKeys(ys)
    ensures Collapse(xs) == Collapse(ys)
  {
    forall k: I32
      ensures k in Collapse(xs) ==> k in Collapse(ys) && Collapse(ys)[k] == Collapse(xs)[k]
      ensures k in Collapse(ys) ==> k in Collapse(xs)
    {
      if k in Collapse(xs) {
        SameEntry(xs, ys, k, Collapse(xs)[k]);
      }
      if k in Collapse(ys) {
        SameEntry(ys, xs, k, Collapse(ys)[k]);
      }
    }
    assert Collapse(xs).Keys == Collapse(ys).Keys;
  }

  lemma SameEntry(xs: seq<Entry>, ys: seq<Entry>, k: I32, v: Bytes)
    requires multiset(xs) == multiset(ys)
    requires DistinctKeys(xs)
    requires DistinctKeys(ys)
    requires k in Collapse(xs) && Collapse(xs)[k] == v
    ensures k in Collapse(ys) && Collapse(ys)[k] == v
  {
    CollapseDistinct(xs, k, v);
    CollapseDistinct(ys, k, v);
    assert (k, v) in multiset(xs);
    assert (k, v) in multiset(ys);
  }

  lemma DuplicateCount(ys: seq<Entry>, i: nat, j: nat)
    requires i < j < |ys| && ys[i] == ys[j]
    ensures multiset(ys)[ys[i]] >= 2
  {
    assert ys == ys[..j] + ys[j..];
    assert ys[i] in ys[..j] by { assert ys[..j][i] == ys[i]; }
    assert ys[j] in ys[j..] by { assert ys[j..][0] == ys[j]; }
    assert multiset(ys) == multiset(ys[..j]) + multiset(ys[j..]);
  }

  lemma {:induction false} OnceCount(xs: seq<Entry>, e: Entry)
    requires DistinctKeys(xs)
    ensures multiset(xs)[e] <= 1
  {
    if xs == [] {
    } else {
      var n := |xs| - 1;
      assert xs == xs[..n] + [xs[n]];
      OnceCount(xs[..n], e);
      if xs[n] == e {
        assert e !in xs[..n];
      }
      assert multiset(xs) == multiset(xs[..n]) + multiset([xs[n]]);
    }
  }

  lemma {:induction false} CollapseDistinct(es: seq<Entry>, k: I32, v: Bytes)
    requires DistinctKeys(es)
    ensures (k in Collapse(es) && Collapse(es)[k] == v) <==> (k, v) in es
  {
    if es == [] {
    } else {
      var n := |es| - 1;
      CollapseDistinct(es[..n], k, v);
      assert es == es[..n] + [es[n]];
      assert forall i :: 0 <= i < n ==> es[..n][i].0 != es[n].0;
    }
  }

  // ----- size of the canonical form ------------------------------------------------------------

  ghost function MapSize(m: map<I32, Bytes>): (n: nat)
    decreases |m|
  {
    if m == map[] then 0
    else
      var k := MinOf(m.Keys);
      assert |(m - {k}).Keys| == |m.Keys - {k}| by { assert (m - {k}).Keys == m.Keys - {k}; }
      8 + |m[k]| + MapSize(m - {k})
  }

  lemma {:induction false} MapSizeEncodes(m: map<I32, Bytes>)
    requires MapFits(m)
    ensures |EncodeHeaders(m)| == MapSize(m)
    decreases |m|
  {
    if m == map[] {
    } else {
      var k := MinOf(m.Keys);
      assert |(m - {k}).Keys| == |m.Keys - {k}| by { assert (m - {k}).Keys == m.Keys - {k}; }
      MapSizeEncodes(m - {k});
      assert SortedEntries(m)[1..] == SortedEntries(m - {k});
    }
  }

  lemma MapSizeHead(m: map<I32, Bytes>, k: I32)
    requires m != map[] && k == MinOf(m.Keys)
    ensures MapSize(m) == 8 + |m[k]| + MapSize(m - {k})
  {
  }

  /** Removing another key leaves the least one where it was. */
  lemma LeastStays(m: map<I32, Bytes>, k: I32, k0: I32)
    requires k in m && k != k0 && k0 == MinOf(m.Keys)
    ensures k0 in m - {k} && m - {k} != map[] && MinOf((m - {k}).Keys) == k0
    ensures k in m - {k0} && |m - {k0}| < |m| && m - {k0} - {k} == m - {k} - {k0}
  {
    var without := m - {k};
    assert k0 in without;
    WithoutOne(m, k0);
    assert forall x :: x in without.Keys ==> x in m.Keys;
    hide MinOf;
  }

  lemma {:induction false} MapSizeRemove(m: map<I32, Bytes>, k: I32)
    requires k in m
    ensures MapSize(m) == 8 + |m[k]| + MapSize(m - {k})
    decreases |m|
  {
    hide MapSize, MinOf;
    var k0: I32 := MinOf(m.Keys);
    MapSizeHead(m, k0);
    if k == k0 {
    } else {
      LeastStays(m, k, k0);
      MapSizeRemove(m - {k0}, k);
      MapSizeHead(m - {k}, k0);
    }
  }

  /** Re-encoding in canonical form never needs more room than the entries that were read. */
  lemma {:induction false} CollapseNeverGrows(es: seq<Entry>)
    requires EntriesFit(es)
    ensures MapFits(Collapse(es))
    ensures MapSize(Collapse(es)) <= |EncodeEntries(es)|
  {
    if es == [] {
    } else {
      var n := |es| - 1;
      var e := es[n];
      var m := Collapse(es[..n]);
      CollapseNeverGrows(es[..n]);
      assert es == es[..n] + [e];
      EncodeAppend(es[..n], [e]);
      assert EncodeEntries([e]) == EncodeEntry(e);
      var m' := m[e.0 := e.1];
      MapSizeRemove(m', e.0);
      assert m' - {e.0} == m - {e.0};
      if e.0 in m {
        MapSizeRemove(m, e.0);
      } else {
        assert m - {e.0} == m;
      }
    }
  }

  // ----- the bytes themselves ------------------------------------------------------------------

  /** An entry by position: key and length little-endian, the key in two's complement, then the value. */
  lemma EntryBytes(e: Entry)
    requires |e.1| < 0x1_0000_0000
    ensures var b := EncodeEntry(e);
            && |b| == 8 + |e.1|
            && b[0] + 0x100 * b[1] as int + 0x1_0000 * b[2] as int + 0x100_0000 * b[3] as int
               == (if e.0 < 0 then e.0 + 0x1_0000_0000 else e.0)
            && b[4] + 0x100 * b[5] as int + 0x1_0000 * b[6] as int + 0x100_0000 * b[7] as int == |e.1|
            && b[8..] == e.1
  {
    LeBytes(ToUnsigned(e.0));
    LeBytes(|e.1|);
    hide Le;
  }

  /** Where entry `i` starts. */
  function OffsetOf(es: seq<Entry>, i: nat): nat
    requires i <= |es|
  {
    if i == 0 then 0 else 8 + |es[0].1| + OffsetOf(es[1..], i - 1)
  }

  /** The entries stand one behind the other, in their order. */
  lemma {:induction false} EntriesAt(es: seq<Entry>, i: nat)
    requires EntriesFit(es) && i < |es|
    ensures var b := EncodeEntries(es);
            var o := OffsetOf(es, i);
            o + 8 + |es[i].1| <= |b| && b[o..o + 8 + |es[i].1|] == EncodeEntry(es[i])
    ensures |EncodeEntries(es)| == OffsetOf(es, |es|)
  {
    hide EncodeEntry;
    EntryLength(es[0]);
    EntriesLength(es);
    if i == 0 {
      assert EncodeEntries(es)[0..8 + |es[0].1|] == EncodeEntry(es[0]);
    } else {
      EntriesAt(es[1..], i - 1);
      var head, tail := EncodeEntry(es[0]), EncodeEntries(es[1..]);
      var o, n := OffsetOf(es[1..], i - 1), 8 + |es[i].1|;
      assert (head + tail)[|head| + o..|head| + o + n] == tail[o..o + n];
    }
  }

  lemma EntryLength(e: Entry)
    requires |e.1| < 0x1_0000_0000
    ensures |EncodeEntry(e)| == 8 + |e.1|
  {
  }

  lemma {:induction false} EntriesLength(es: seq<Entry>)
    requires EntriesFit(es)
    ensures |EncodeEntries(es)| == OffsetOf(es, |es|)
  {
    hide EncodeEntry;
    if es == [] {
    } else {
      EntryLength(es[0]);
      EntriesLength(es[1..]);
    }
  }

  /** The map a reader ends with: exactly the keys that occur, each with the value of its last entry. */
  lemma {:induction false} LastEntryWins(es: seq<Entry>, k: I32)
    ensures k in Collapse(es) <==> exists i :: 0 <= i < |es| && es[i].0 == k
    ensures forall i :: 0 <= i < |es| && es[i].0 == k && (forall j :: i < j < |es| ==> es[j].0 != k) ==>
                          k in Collapse(es) && Collapse(es)[k] == es[i].1
  {
    if es == [] {
    } else {
      var front, last := es[..|es| - 1], es[|es| - 1];
      LastEntryWins(front, k);
      assert forall i :: 0 <= i < |front| ==> front[i] == es[i];
      if k in Collapse(front) {
        var i :| 0 <= i < |front| && front[i].0 == k;
        assert es[i].0 == k;
      }
      forall i | 0 <= i < |es| && es[i].0 == k && (forall j :: i < j < |es| ==> es[j].0 != k)
        ensures k in Collapse(es) && Collapse(es)[k] == es[i].1
      {
        if i < |front| {
          assert front[i].0 == k && es[|es| - 1].0 != k;
        }
      }
    }
  }

  /** The two ways a header section can be cut, behind any whole entries: in a key or length, or in a value. */
  lemma HeaderRefusals(es: seq<Entry>, tail: Bytes)
    requires EntriesFit(es)
    ensures 0 < |tail| < 8 ==> HeadersOf(EncodeEntries(es) + tail) == Err(TruncatedMeta)
    ensures |tail| >= 8 &&
            tail[4] + 0x100 * tail[5] as int + 0x1_0000 * tail[6] as int + 0x100_0000 * tail[7] as int > |tail| - 8 ==>
              HeadersOf(EncodeEntries(es) + tail) == Err(TruncatedData)
  {
    DecodeAppend(es, tail);
    if |tail| >= 8 {
      FromLeBytes(tail[4..8]);
    }
    hide FromLe, EncodeEntries;
  }
}
