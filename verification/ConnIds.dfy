/** The conn-id allocator: a wrapping 32-bit counter that skips used ids and rewinds out of range. */
module ConnIds {
  import opened Base

  const WORD := 0x1_0000_0000
  const MIN_CONN_ID: U32 := 0
  const MAX_CONN_ID: U32 := 0x7FFF_FFFE

  predicate AllUsed(inUse: set<U32>, lo: int, hi: int) {
    forall id: U32 :: lo <= id < hi ==> id in inUse
  }

  /** The least unused id in `[lo, hi)`, or `hi` when there is none. */
  ghost function Least(inUse: set<U32>, lo: int, hi: U32): (id: int)
    requires 0 <= lo
    ensures AllUsed(inUse, lo, id)
    ensures lo <= hi ==> lo <= id <= hi
    ensures id < hi ==> lo <= id && id !in inUse
    ensures lo > hi ==> id == lo
    decreases hi - lo
  {
    if lo >= hi then lo
    else if lo !in inUse then lo
    else Least(inUse, lo + 1, hi)
  }

  /** Where the scan lands once it has run past the range, the next candidate being `c >= max`. */
  ghost function PastEnd(inUse: set<U32>, min: U32, max: U32, c: int): (id: int)
    requires 0 <= c
  {
    if AllUsed(inUse, c, WORD) && AllUsed(inUse, 0, min) then Least(inUse, min, max)
    else Least(inUse, min + 1 as int, max)
  }

  /**
   The id the scan starting at candidate `c` is bound for, said without any loop; not below `max` exactly
   when there is none. Only a full wrap, every id up to 2^32 and below `min` being used, reaches `min` itself.
   */
  ghost function Target(inUse: set<U32>, min: U32, max: U32, c: U32): (id: int) {
    if c < min then
      if AllUsed(inUse, c, min) then Least(inUse, min, max) else Least(inUse, min + 1 as int, max)
    else if Least(inUse, c, max) < max then Least(inUse, c, max)
    else PastEnd(inUse, min, max, if c < max then max else c)
  }

  /** `fetch_add(1).wrapping_add(1)`, and the rewind's `store(min)` followed by it. */
  function Succ(c: U32): (next: U32) {
    (c + 1 as int) % WORD
  }

  /** One turn of the source's loop on a candidate that is not returned. */
  function Next(inUse: set<U32>, min: U32, c: U32): (next: U32) {
    if c in inUse then Succ(c) else Succ(min)
  }

  predicate Accepts(inUse: set<U32>, min: U32, max: U32, c: U32) {
    c !in inUse && min <= c < max
  }

  lemma {:induction false} LeastUnique(inUse: set<U32>, lo: int, hi: U32, id: int)
    requires 0 <= lo <= id < hi && id !in inUse && AllUsed(inUse, lo, id)
    ensures Least(inUse, lo, hi) == id
    decreases id - lo
  {
    if lo == id {
    } else {
      var at: U32 := lo;
      assert at in inUse;
      LeastUnique(inUse, lo + 1, hi, id);
    }
  }

  lemma {:induction false} LeastSkips(inUse: set<U32>, lo: int, mid: int, hi: U32)
    requires 0 <= lo <= mid && AllUsed(inUse, lo, mid)
    ensures mid <= hi ==> Least(inUse, lo, hi) == Least(inUse, mid, hi)
    decreases mid - lo
  {
    if lo == mid || mid > hi {
    } else {
      var at: U32 := lo;
      assert at in inUse;
      LeastSkips(inUse, lo + 1, mid, hi);
    }
  }

  /** Every turn of the loop keeps the destination and comes closer to it. */
  lemma NextKeepsTarget(inUse: set<U32>, min: U32, max: U32, c: U32)
    requires Target(inUse, min, max, c) < max && !Accepts(inUse, min, max, c)
    ensures var f := Target(inUse, min, max, c);
            var c' := Next(inUse, min, c);
            && Target(inUse, min, max, c') == f
            && Distance(c', f) < Distance(c, f)
  {
    var f := Target(inUse, min, max, c);
    var c' := Next(inUse, min, c);
    if c !in inUse {
      RewindTarget(inUse, min, max, c);
    } else if c < min {
      assert AllUsed(inUse, c, min) <==> AllUsed(inUse, c + 1 as int, min);
    } else if c < max {
      LeastSkips(inUse, c, c + 1 as int, max);
    } else {
      assert AllUsed(inUse, c, WORD) <==> AllUsed(inUse, c + 1 as int, WORD);
    }
  }

  lemma RewindTarget(inUse: set<U32>, min: U32, max: U32, c: U32)
    requires Target(inUse, min, max, c) < max && !Accepts(inUse, min, max, c) && c !in inUse
    ensures Target(inUse, min, max, c) == Least(inUse, min + 1 as int, max)
    ensures Succ(min) == min + 1 as int && Target(inUse, min, max, Succ(min)) == Least(inUse, min + 1 as int, max)
  {
    assert !AllUsed(inUse, c, c + 1 as int);
    assert Succ(min) == min + 1 as int;
  }

  /** How far candidate `c` is from `f`: straight on, or over the top of the 32-bit range. */
  function Distance(c: U32, f: int): int {
    if c <= f then f - c else WORD - c + f + 1
  }

  /**
   `alloc_conn_id`: from any counter value, returns a free id of `[min, max)`, exactly the one `Target`
   names, and leaves the counter on it.
   */
  method AllocConnId(counter: U32, min: U32, max: U32, inUse: set<U32>) returns (id: U32, counter': U32)
    requires Target(inUse, min, max, Succ(counter)) < max
    ensures id !in inUse && min <= id < max
    ensures id == Target(inUse, min, max, Succ(counter))
    ensures counter' == id
  {
    ghost var f := Target(inUse, min, max, Succ(counter));
    counter' := Succ(counter);
    var next := counter';
    while true
      invariant next == counter'
      invariant Target(inUse, min, max, next) == f
      decreases Distance(next, f)
    {
      if Accepts(inUse, min, max, next) {
        LeastUnique(inUse, next, max, next);
        return next, counter';
      }
      NextKeepsTarget(inUse, min, max, next);
      if next in inUse {
        counter' := Succ(counter');
        next := counter';
      } else {
        counter' := min;
        counter' := Succ(counter');
        next := counter';
      }
    }
  }

  /** A free id strictly inside the range is enough for the allocator to come back, whatever the counter. */
  lemma FreeIdSuffices(inUse: set<U32>, min: U32, max: U32, counter: U32, free: U32)
    requires min < free < max && free !in inUse
    ensures Target(inUse, min, max, Succ(counter)) < max
  {
    assert !AllUsed(inUse, min, max) && !AllUsed(inUse, min + 1 as int, max);
    assert Least(inUse, min, max) < max && Least(inUse, min + 1 as int, max) < max;
  }

  /** The candidate after `k` turns. */
  ghost function Candidate(inUse: set<U32>, min: U32, c: U32, k: nat): (r: U32)
    decreases k
  {
    if k == 0 then c else Candidate(inUse, min, Next(inUse, min, c), k - 1)
  }

  /** Without a destination no turn ever accepts: the loop runs for ever, so the precondition is exact. */
  lemma {:induction false} OtherwiseLoopsForever(inUse: set<U32>, min: U32, max: U32, c: U32, k: nat)
    requires min < max && Target(inUse, min, max, c) >= max
    ensures !Accepts(inUse, min, max, Candidate(inUse, min, c, k))
    decreases k
  {
    if Accepts(inUse, min, max, c) {
      LeastUnique(inUse, c, max, c);
    }
    if k == 0 {
    } else {
      StuckStaysStuck(inUse, min, max, c);
      OtherwiseLoopsForever(inUse, min, max, Next(inUse, min, c), k - 1);
    }
  }

  lemma StuckStaysStuck(inUse: set<U32>, min: U32, max: U32, c: U32)
    requires min < max && Target(inUse, min, max, c) >= max
    ensures Target(inUse, min, max, Next(inUse, min, c)) >= max
  {
    var c' := Next(inUse, min, c);
    if Accepts(inUse, min, max, c) {
      LeastUnique(inUse, c, max, c);
    }
    if c !in inUse {
      assert !AllUsed(inUse, c, c + 1 as int);
      assert c' == min + 1 as int;
      NoneInside(inUse, min, max);
    } else if c < min {
      assert AllUsed(inUse, c, min) <==> AllUsed(inUse, c + 1 as int, min);
    } else if c < max {
      LeastSkips(inUse, c, c + 1 as int, max);
    } else {
      assert AllUsed(inUse, c, WORD) <==> AllUsed(inUse, c + 1 as int, WORD);
    }
  }

  /** With `(min, max)` full and some id outside `[min, max)` free, the rewind is a trap. */
  lemma NoneInside(inUse: set<U32>, min: U32, max: U32)
    requires min < max && Least(inUse, min + 1 as int, max) >= max
    requires exists id: U32 :: id !in inUse && (id < min || id >= max)
    ensures Target(inUse, min, max, Succ(min)) >= max
  {
    assert Succ(min) == min + 1 as int;
    assert !(AllUsed(inUse, max, WORD) && AllUsed(inUse, 0, min));
  }

  /** From inside the range the scan goes to the next free id above the counter, if the range has one. */
  lemma NextFreeAbove(inUse: set<U32>, min: U32, max: U32, counter: U32, free: U32)
    requires min <= counter && counter < free < max && free !in inUse
    ensures var id := Target(inUse, min, max, Succ(counter));
            && counter < id <= free && id !in inUse
            && forall k: U32 :: counter < k < id ==> k in inUse
  {
    assert Succ(counter) == counter + 1 as int;
    var id := Least(inUse, counter + 1 as int, max);
    assert AllUsed(inUse, counter + 1 as int, id);
    assert id <= free;
  }

  /** With none left above it, and some id beyond the range free, it starts over just above the minimum. */
  lemma RewindsToLowest(inUse: set<U32>, min: U32, max: U32, counter: U32, beyond: U32)
    requires min <= counter < max <= beyond && beyond !in inUse
    requires forall k: U32 :: counter < k < max ==> k in inUse
    ensures var id := Target(inUse, min, max, Succ(counter));
            id < max ==> min < id && id !in inUse && forall k: U32 :: min < k < id ==> k in inUse
  {
    var c := Succ(counter);
    assert c == counter + 1 as int;
    assert AllUsed(inUse, c, max);
    LeastSkips(inUse, c, max, max);
    assert !AllUsed(inUse, max, WORD);
    var id := Least(inUse, min + 1 as int, max);
    assert AllUsed(inUse, min + 1 as int, id);
  }

  /** The counter wraps at 2^32. */
  lemma CounterWraps()
    ensures Succ(0xFFFF_FFFF) == 0 && forall c: U32 :: c < 0xFFFF_FFFF ==> Succ(c) == c + 1 as int
  {
  }
}
