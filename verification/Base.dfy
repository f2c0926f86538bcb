/** Fixed-width integers, byte strings and the two result types shared by every module. */
module Base {

  type Byte = x: int | 0 <= x < 0x100
  type Bytes = seq<Byte>

  type U32 = x: int | 0 <= x < 0x1_0000_0000
  type I32 = x: int | -0x8000_0000 <= x < 0x8000_0000

  datatype Option<+T> = None | Some(value: T)

  datatype Result<+T, +E> = Ok(value: T) | Err(error: E)

  function Concat<T>(chunks: seq<seq<T>>): seq<T> {
    if chunks == [] then [] else chunks[0] + Concat(chunks[1..])
  }

  lemma {:induction false} ConcatAppend<T>(xs: seq<seq<T>>, ys: seq<seq<T>>)
    ensures Concat(xs + ys) == Concat(xs) + Concat(ys)
  {
    if xs == [] {
      assert xs + ys == ys;
    } else {
      assert (xs + ys)[1..] == xs[1..] + ys;
      ConcatAppend(xs[1..], ys);
    }
  }

  // Sequence algebra, kept in small lemmas so that larger proofs need no extensionality.

  lemma HeadTail<T>(xs: seq<T>, ys: seq<T>)
    requires xs != []
    ensures xs == [xs[0]] + xs[1..]
    ensures xs + ys == [xs[0]] + (xs[1..] + ys)
    ensures (xs + ys)[0] == xs[0] && (xs + ys)[1..] == xs[1..] + ys
  {
  }

  lemma Assoc<T>(xs: seq<T>, ys: seq<T>, zs: seq<T>)
    ensures xs + ys + zs == xs + (ys + zs)
  {
  }

  lemma TakeDrop<T>(xs: seq<T>, n: nat)
    requires n <= |xs|
    ensures xs == xs[..n] + xs[n..]
  {
  }

  lemma SplitSlice<T>(xs: seq<T>, i: nat, j: nat)
    requires i <= j <= |xs|
    ensures xs[..j] == xs[..i] + xs[i..j]
  {
  }

  lemma SliceOfDrop<T>(xs: seq<T>, i: nat, a: nat, b: nat)
    requires i + a <= i + b <= |xs|
    ensures xs[i..][a..b] == xs[i + a..i + b]
  {
  }

  lemma Snoc<T>(xs: seq<T>, x: T)
    ensures (xs + [x])[..|xs|] == xs && (xs + [x])[|xs|] == x && |xs + [x]| == |xs| + 1
  {
  }

  lemma Unit<T>(xs: seq<T>)
    ensures [] + xs == xs && xs + [] == xs
  {
  }

  lemma EmptyOrInhabited(s: set<int>)
    ensures s == {} || exists x: int :: x in s
  {
    if !exists x: int :: x in s {
      assert s == {};
    }
  }

  /** The least element of a non-empty set of integers. */
  ghost function MinOf(s: set<int>): (m: int)
    requires s != {}
    ensures m in s && forall x :: x in s ==> m <= x
  {
    EmptyOrInhabited(s);
    var x :| x in s;
    var rest := s - {x};
    if rest == {} then
      assert s == {x};
      x
    else
      assert forall y :: y in s ==> y == x || y in rest;
      var m := MinOf(rest);
      if x < m then x else m
  }

  /** Two's complement view of a signed word, and back. */
  function ToUnsigned(v: I32): (u: U32) {
    if v < 0 then v + 0x1_0000_0000 else v
  }

  function ToSigned(u: U32): (v: I32)
    ensures ToUnsigned(v) == u
  {
    if u < 0x8000_0000 then u else u - 0x1_0000_0000
  }

  /** `to_le_bytes` of a 32-bit word. */
  function Le(v: U32): (b: Bytes)
    ensures |b| == 4
  {
    var v1 := v / 0x100;
    var v2 := v1 / 0x100;
    [v % 0x100, v1 % 0x100, v2 % 0x100, v2 / 0x100]
  }

  function Word(b0: int, b1: int, b2: int, b3: int): int {
    b0 + 0x100 * (b1 + 0x100 * (b2 + 0x100 * b3))
  }

  /** `from_le_bytes` of a 32-bit word. */
  function FromLe(b: Bytes): (v: U32)
    requires |b| == 4
  {
    Word(b[0], b[1], b[2], b[3])
  }

  lemma FromLeLe(v: U32)
    ensures FromLe(Le(v)) == v
  {
  }

  /** The least significant byte comes first. */
  lemma LeBytes(v: U32)
    ensures Le(v)[0] + 0x100 * Le(v)[1] as int + 0x1_0000 * Le(v)[2] as int + 0x100_0000 * Le(v)[3] as int == v
  {
  }

  lemma FromLeBytes(b: Bytes)
    requires |b| == 4
    ensures FromLe(b) == b[0] + 0x100 * b[1] as int + 0x1_0000 * b[2] as int + 0x100_0000 * b[3] as int
  {
  }

  lemma DivMod(a: int, q: int)
    requires 0 <= a < 0x100
    ensures (a + 0x100 * q) / 0x100 == q && (a + 0x100 * q) % 0x100 == a
  {
  }

  lemma LeFromLe(b: Bytes)
    requires |b| == 4
    ensures Le(FromLe(b)) == b
  {
    DivMod(b[0], b[1] as int + 0x100 * (b[2] + 0x100 * b[3] as int));
    DivMod(b[1], b[2] as int + 0x100 * b[3] as int);
    DivMod(b[2], b[3]);
  }
}
