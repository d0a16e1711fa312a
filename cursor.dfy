// The range cursor of rocksdb/napi/iterator.cpp (BaseIterator) over an
// abstract engine view: a strictly sorted sequence of keys with their values.
// The engine's own cursor (rocksdb::Iterator) is an index `pos` into that
// sequence; it is valid exactly when 0 <= pos < |keys|.

module Cursors {
  import opened Common
  import opened Keys

  /** The four optional bounds an iterator is created with. */
  datatype Range = Range(lt: Option<Bytes>, lte: Option<Bytes>, gt: Option<Bytes>, gte: Option<Bytes>)

  const NoBounds := Range(None, None, None, None)

  /** The upper side of a range: `lte` takes precedence over `lt`. */
  predicate BelowUpper(r: Range, t: Bytes) {
    if r.lte.Some? then !Less(r.lte.value, t)
    else if r.lt.Some? then Less(t, r.lt.value)
    else true
  }

  /** The lower side of a range: `gte` takes precedence over `gt`. */
  predicate AboveLower(r: Range, t: Bytes) {
    if r.gte.Some? then !Less(t, r.gte.value)
    else if r.gt.Some? then Less(r.gt.value, t)
    else true
  }

  /** BaseIterator::OutOfRange, written over three-way comparisons. */
  function OutOfRange(r: Range, target: Bytes): (out: bool)
    ensures out <==> !(AboveLower(r, target) && BelowUpper(r, target))
  {
    CompareFlipAll();
    if r.lte.Some? && Compare(target, r.lte.value) > 0 then true
    else if r.lte.None? && r.lt.Some? && Compare(target, r.lt.value) >= 0 then true
    else if r.gte.Some? && Compare(target, r.gte.value) < 0 then true
    else if r.gte.None? && r.gt.Some? && Compare(target, r.gt.value) <= 0 then true
    else false
  }

  lemma CompareFlipAll()
    ensures forall a: Bytes, b: Bytes {:trigger Compare(a, b)} :: Compare(a, b) == -Compare(b, a)
  {
    forall a: Bytes, b: Bytes ensures Compare(a, b) == -Compare(b, a) {
      CompareFlip(a, b);
    }
  }

  /** With `lte` given, `lt` is never consulted; likewise `gt` under `gte`. */
  lemma BoundPrecedence(r: Range, t: Bytes, x: Option<Bytes>, y: Option<Bytes>)
    requires r.lte.Some? && r.gte.Some?
    ensures OutOfRange(r, t) == OutOfRange(r.(lt := x, gt := y), t)
    ensures OutOfRange(r, t) <==> Less(r.lte.value, t) || Less(t, r.gte.value)
  {
  }

  /** Without bounds nothing is out of range. */
  lemma NoBoundsAdmitsAll(t: Bytes)
    ensures !OutOfRange(NoBounds, t)
  {
  }

  // ---------------------------------------------------------------------
  // Positions in a sorted key sequence

  /** p is the first index whose key is not below t (|ks| if none). */
  predicate IsFirstAtLeast(ks: seq<Bytes>, p: int, t: Bytes) {
    0 <= p <= |ks|
    && (forall i :: 0 <= i < p ==> Less(ks[i], t))
    && (p < |ks| ==> !Less(ks[p], t))
  }

  /** p is the first index whose key is above t (|ks| if none). */
  predicate IsFirstAbove(ks: seq<Bytes>, p: int, t: Bytes) {
    0 <= p <= |ks|
    && (forall i :: 0 <= i < p ==> !Less(t, ks[i]))
    && (p < |ks| ==> Less(t, ks[p]))
  }

  /** p is the last index whose key is not above t (-1 if none). */
  predicate IsLastAtMost(ks: seq<Bytes>, p: int, t: Bytes) {
    -1 <= p < |ks|
    && (forall i :: p < i < |ks| ==> Less(t, ks[i]))
    && (p >= 0 ==> !Less(t, ks[p]))
  }

  /** p is the last index whose key is below t (-1 if none). */
  predicate IsLastBelow(ks: seq<Bytes>, p: int, t: Bytes) {
    -1 <= p < |ks|
    && (forall i :: p < i < |ks| ==> !Less(ks[i], t))
    && (p >= 0 ==> Less(ks[p], t))
  }

  /** The engine's Seek: the first key at or after t. */
  function LowerBound(ks: seq<Bytes>, t: Bytes, from: nat := 0): (p: int)
    requires from <= |ks|
    requires forall i :: 0 <= i < from ==> Less(ks[i], t)
    ensures IsFirstAtLeast(ks, p, t)
    decreases |ks| - from
  {
    if from == |ks| || !Less(ks[from], t) then from else LowerBound(ks, t, from + 1)
  }

  /** The first key after t. */
  function UpperBound(ks: seq<Bytes>, t: Bytes, from: nat := 0): (p: int)
    requires from <= |ks|
    requires forall i :: 0 <= i < from ==> !Less(t, ks[i])
    ensures IsFirstAbove(ks, p, t)
    decreases |ks| - from
  {
    if from == |ks| || Less(t, ks[from]) then from else UpperBound(ks, t, from + 1)
  }

  /** In a sorted sequence the first index at or after t splits it in two. */
  lemma AtLeastSplits(ks: seq<Bytes>, p: int, t: Bytes)
    requires StrictlySorted(ks) && IsFirstAtLeast(ks, p, t)
    ensures forall i :: 0 <= i < |ks| ==> (Less(ks[i], t) <==> i < p)
  {
    forall i | p < i < |ks| ensures !Less(ks[i], t) {
      if Less(ks[i], t) {
        LessTransitive(ks[p], ks[i], t);
      }
    }
  }

  /** In a sorted sequence the first index after t splits it in two. */
  lemma AboveSplits(ks: seq<Bytes>, p: int, t: Bytes)
    requires StrictlySorted(ks) && IsFirstAbove(ks, p, t)
    ensures forall i :: 0 <= i < |ks| ==> (Less(t, ks[i]) <==> p <= i)
  {
    forall i | p < i < |ks| ensures Less(t, ks[i]) {
      LessTransitive(t, ks[p], ks[i]);
    }
    forall i | 0 <= i < p ensures !Less(t, ks[i]) {
    }
  }

  // ---------------------------------------------------------------------
  // The in-range block

  /** First index satisfying the lower side of r. */
  function RangeStart(ks: seq<Bytes>, r: Range): (lo: int)
    ensures 0 <= lo <= |ks|
  {
    if r.gte.Some? then LowerBound(ks, r.gte.value)
    else if r.gt.Some? then UpperBound(ks, r.gt.value)
    else 0
  }

  /** First index past the upper side of r. */
  function RangeEnd(ks: seq<Bytes>, r: Range): (hi: int)
    ensures 0 <= hi <= |ks|
  {
    if r.lte.Some? then UpperBound(ks, r.lte.value)
    else if r.lt.Some? then LowerBound(ks, r.lt.value)
    else |ks|
  }

  /** The keys inside r form the contiguous block [RangeStart, RangeEnd). */
  lemma InRangeBlock(ks: seq<Bytes>, r: Range)
    requires StrictlySorted(ks)
    ensures forall i :: 0 <= i < |ks| ==>
      (!OutOfRange(r, ks[i]) <==> RangeStart(ks, r) <= i < RangeEnd(ks, r))
  {
    if r.gte.Some? {
      AtLeastSplits(ks, RangeStart(ks, r), r.gte.value);
    } else if r.gt.Some? {
      AboveSplits(ks, RangeStart(ks, r), r.gt.value);
    }
    if r.lte.Some? {
      AboveSplits(ks, RangeEnd(ks, r), r.lte.value);
    } else if r.lt.Some? {
      AtLeastSplits(ks, RangeEnd(ks, r), r.lt.value);
    }
  }

  /** The in-range keys in ascending order: an independent reference. */
  function InRange(ks: seq<Bytes>, r: Range): (out: seq<Bytes>)
    ensures |out| <= |ks|
  {
    if |ks| == 0 then []
    else (if OutOfRange(r, ks[0]) then [] else [ks[0]]) + InRange(ks[1..], r)
  }

  /** A key is kept exactly when it is among the keys and inside the range. */
  lemma {:induction false} InRangeMembers(ks: seq<Bytes>, r: Range, k: Bytes)
    ensures k in InRange(ks, r) <==> k in ks && !OutOfRange(r, k)
    decreases |ks|
  {
    if |ks| > 0 {
      InRangeMembers(ks[1..], r, k);
      assert ks == [ks[0]] + ks[1..];
    }
  }

  /** Filtering a sequence whose in-range part is a block yields that block. */
  lemma {:induction false} FilterBlock(ks: seq<Bytes>, r: Range, lo: int, hi: int)
    requires 0 <= lo <= hi <= |ks|
    requires forall i :: 0 <= i < |ks| ==> (!OutOfRange(r, ks[i]) <==> lo <= i < hi)
    ensures InRange(ks, r) == ks[lo..hi]
    decreases |ks|
  {
    if |ks| > 0 {
      var tail := ks[1..];
      var lo', hi' := if lo > 0 then lo - 1 else 0, if hi > 0 then hi - 1 else 0;
      forall i | 0 <= i < |tail| ensures !OutOfRange(r, tail[i]) <==> lo' <= i < hi' {
        assert tail[i] == ks[i + 1];
      }
      FilterBlock(tail, r, lo', hi');
      if lo > 0 {
        assert tail[lo'..hi'] == ks[lo..hi];
      } else if hi > 0 {
        assert ks[0..hi] == [ks[0]] + tail[0..hi'];
      }
    }
  }

  /** The in-range keys are exactly ks[RangeStart .. RangeEnd] (or none). */
  lemma InRangeIsSlice(ks: seq<Bytes>, r: Range)
    requires StrictlySorted(ks)
    ensures RangeStart(ks, r) <= RangeEnd(ks, r) ==>
      InRange(ks, r) == ks[RangeStart(ks, r)..RangeEnd(ks, r)]
    ensures RangeStart(ks, r) > RangeEnd(ks, r) ==> InRange(ks, r) == []
  {
    InRangeBlock(ks, r);
    var lo, hi := RangeStart(ks, r), RangeEnd(ks, r);
    if lo <= hi {
      FilterBlock(ks, r, lo, hi);
    } else {
      FilterBlock(ks, r, lo, lo);
    }
  }

  /** The in-range keys in the order an iterator visits them. */
  function Visiting(ks: seq<Bytes>, r: Range, reverse: bool): seq<Bytes> {
    if reverse then Reversed(InRange(ks, r)) else InRange(ks, r)
  }

  function Reversed<T>(s: seq<T>): (out: seq<T>)
    ensures |out| == |s|
    ensures forall i :: 0 <= i < |s| ==> out[i] == s[|s| - 1 - i]
  {
    if |s| == 0 then [] else Reversed(s[1..]) + [s[0]]
  }

  /** The position of the t-th visited key. */
  function VisitPos(ks: seq<Bytes>, r: Range, reverse: bool, t: int): int {
    if reverse then RangeEnd(ks, r) - 1 - t else RangeStart(ks, r) + t
  }

  /**
   * Visiting the range one key at a time: the t-th visit is the t-th key of
   * Visiting, and the position after the last visit holds nothing in range.
   */
  lemma VisitOrder(ks: seq<Bytes>, r: Range, reverse: bool)
    requires StrictlySorted(ks)
    ensures forall t :: 0 <= t < |Visiting(ks, r, reverse)| ==>
      0 <= VisitPos(ks, r, reverse, t) < |ks|
      && !OutOfRange(r, ks[VisitPos(ks, r, reverse, t)])
      && ks[VisitPos(ks, r, reverse, t)] == Visiting(ks, r, reverse)[t]
    ensures var p := VisitPos(ks, r, reverse, |Visiting(ks, r, reverse)|);
      -1 <= p <= |ks| && (0 <= p < |ks| ==> OutOfRange(r, ks[p]))
  {
    VisitIndex(ks, r, reverse);
    InRangeBlock(ks, r);
  }

  /** The t-th visited key sits at VisitPos, inside the block bounds. */
  lemma VisitIndex(ks: seq<Bytes>, r: Range, reverse: bool)
    requires StrictlySorted(ks)
    ensures |Visiting(ks, r, reverse)| ==
      if RangeStart(ks, r) <= RangeEnd(ks, r) then RangeEnd(ks, r) - RangeStart(ks, r) else 0
    ensures forall t :: 0 <= t < |Visiting(ks, r, reverse)| ==>
      RangeStart(ks, r) <= VisitPos(ks, r, reverse, t) < RangeEnd(ks, r)
      && ks[VisitPos(ks, r, reverse, t)] == Visiting(ks, r, reverse)[t]
  {
    InRangeIsSlice(ks, r);
    var inr, v := InRange(ks, r), Visiting(ks, r, reverse);
    if reverse {
      forall t | 0 <= t < |v| ensures v[t] == inr[|inr| - 1 - t] {
      }
    }
  }

  /** The number of bytes of keys in a sequence. */
  function KeyBytes(ks: seq<Bytes>): nat {
    if |ks| == 0 then 0 else KeyBytes(ks[..|ks| - 1]) + |ks[|ks| - 1]|
  }

  // ---------------------------------------------------------------------
  // BaseIterator

  class BaseIterator {
    /** The engine's view (the snapshot the iterator reads). */
    const keys: seq<Bytes>
    const values: seq<Bytes>
    const reverse: bool
    const range: Range
    const limit: int
    /** The engine cursor, -1 .. |keys|. */
    var pos: int
    var count: int
    var didSeek: bool
    var hasClosed: bool

    ghost predicate Inv()
      reads this
    {
      StrictlySorted(keys) && |values| == |keys| && -1 <= pos <= |keys|
    }

    /** A cursor that is exhausted (forward) or before the first (reverse). */
    predicate EngineValid()
      reads this
    {
      0 <= pos < |keys|
    }

    constructor (keys: seq<Bytes>, values: seq<Bytes>, reverse: bool, range: Range, limit: int)
      requires StrictlySorted(keys) && |values| == |keys|
      ensures Inv()
      ensures this.keys == keys && this.values == values && this.reverse == reverse
      ensures this.range == range && this.limit == limit
      ensures !hasClosed && !didSeek && count == 0
    {
      this.keys := keys;
      this.values := values;
      this.reverse := reverse;
      this.range := range;
      this.limit := limit;
      pos := |keys|;
      count := 0;
      didSeek := false;
      hasClosed := false;
    }

    // The engine cursor's own moves. Moving from an invalid position is
    // undefined in RocksDB; here it leaves the cursor where it is.

    method EngineSeek(t: Bytes)
      requires Inv()
      modifies this`pos
      ensures Inv() && IsFirstAtLeast(keys, pos, t)
    {
      pos := LowerBound(keys, t);
    }

    method EngineNext()
      requires Inv()
      modifies this`pos
      ensures Inv()
      ensures pos == if old(EngineValid()) then old(pos) + 1 else old(pos)
    {
      if EngineValid() {
        pos := pos + 1;
      }
    }

    method EnginePrev()
      requires Inv()
      modifies this`pos
      ensures Inv()
      ensures pos == if old(EngineValid()) then old(pos) - 1 else old(pos)
    {
      if EngineValid() {
        pos := pos - 1;
      }
    }

    /** BaseIterator::Close: only the first call has an effect. */
    method Close()
      modifies this`hasClosed
      ensures hasClosed
    {
      if hasClosed {
        return;
      }
      hasClosed := true;
    }

    /** BaseIterator::Valid: the cursor is on a key inside the range. */
    predicate Valid()
      requires !hasClosed
      reads this
    {
      EngineValid() && !OutOfRange(range, keys[pos])
    }

    /** BaseIterator::Increment: counts a read against the limit. */
    method Increment() returns (ok: bool)
      requires !hasClosed
      modifies this`count
      ensures count == if limit < 0 then old(count) else old(count) + 1
      ensures ok <==> limit < 0 || count <= limit
    {
      if limit < 0 {
        return true;
      }
      count := count + 1;
      ok := count <= limit;
    }

    /** BaseIterator::Next: one step in iteration order. */
    method Next()
      requires !hasClosed && Inv()
      modifies this`pos
      ensures Inv()
      ensures pos == if !old(EngineValid()) then old(pos)
                     else if reverse then old(pos) - 1 else old(pos) + 1
    {
      if reverse {
        EnginePrev();
      } else {
        EngineNext();
      }
    }

    /** BaseIterator::SeekToFirst: the first key in iteration order. */
    method SeekToFirst()
      requires !hasClosed && Inv()
      modifies this`pos
      ensures Inv()
      ensures pos == if reverse then |keys| - 1 else 0
    {
      if reverse {
        pos := |keys| - 1;
      } else {
        pos := 0;
      }
    }

    /** BaseIterator::SeekToLast: the last key in iteration order. */
    method SeekToLast()
      requires !hasClosed && Inv()
      modifies this`pos
      ensures Inv()
      ensures pos == if reverse then 0 else |keys| - 1
    {
      if reverse {
        pos := 0;
      } else {
        pos := |keys| - 1;
      }
    }

    /** BaseIterator::SeekToEnd: past the last key in iteration order. */
    method SeekToEnd()
      requires !hasClosed && Inv()
      modifies this`pos
      ensures Inv() && !EngineValid()
      ensures pos == if reverse then (if |keys| == 0 then 0 else -1)
                     else (if |keys| == 0 then -1 else |keys|)
    {
      SeekToLast();
      Next();
    }

    /**
     * BaseIterator::SeekToRange: forward, the first key satisfying the lower
     * bound; reverse, the last key satisfying the upper bound.
     */
    method SeekToRange()
      requires !hasClosed && Inv()
      modifies this`pos, this`didSeek
      ensures Inv() && didSeek
      ensures !reverse ==> pos == RangeStart(keys, range)
      ensures reverse ==> pos == RangeEnd(keys, range) - 1
      ensures !reverse && range.gte.Some? ==> IsFirstAtLeast(keys, pos, range.gte.value)
      ensures !reverse && range.gte.None? && range.gt.Some? ==> IsFirstAbove(keys, pos, range.gt.value)
      ensures reverse && range.lte.Some? ==> IsLastAtMost(keys, pos, range.lte.value)
      ensures reverse && range.lte.None? && range.lt.Some? ==> IsLastBelow(keys, pos, range.lt.value)
    {
      didSeek := true;
      if !reverse && range.gte.Some? {
        EngineSeek(range.gte.value);
        assert pos == LowerBound(keys, range.gte.value) by {
          FirstAtLeastUnique(keys, pos, LowerBound(keys, range.gte.value), range.gte.value);
        }
      } else if !reverse && range.gt.Some? {
        SeekAbove(range.gt.value);
      } else if reverse && range.lte.Some? {
        SeekAtMost(range.lte.value);
      } else if reverse && range.lt.Some? {
        SeekBelow(range.lt.value);
      } else if reverse {
        pos := |keys| - 1;
      } else {
        pos := 0;
      }
    }

    /** The `gt` branch of SeekToRange: seek, then step over an equal key. */
    method SeekAbove(gt: Bytes)
      requires Inv()
      modifies this`pos
      ensures Inv() && pos == UpperBound(keys, gt) && IsFirstAbove(keys, pos, gt)
    {
      EngineSeek(gt);
      if EngineValid() && Compare(keys[pos], gt) == 0 {
        EngineNext();
        if pos < |keys| {
          assert Less(keys[pos - 1], keys[pos]);
        }
      } else if EngineValid() {
        Trichotomy(keys[pos], gt);
      }
      forall i | 0 <= i < pos ensures !Less(gt, keys[i]) {
        Trichotomy(keys[i], gt);
      }
      FirstAboveUnique(keys, pos, UpperBound(keys, gt), gt);
    }

    /** The `lte` branch of SeekToRange in reverse: seek, then step back over a greater key. */
    method SeekAtMost(lte: Bytes)
      requires Inv()
      modifies this`pos
      ensures Inv() && pos == UpperBound(keys, lte) - 1 && IsLastAtMost(keys, pos, lte)
    {
      EngineSeek(lte);
      ghost var lb := pos;
      AtLeastSplits(keys, lb, lte);
      if !EngineValid() {
        pos := |keys| - 1;
      } else if Compare(keys[pos], lte) > 0 {
        EnginePrev();
        CompareFlip(keys[lb], lte);
      }
      forall i | pos < i < |keys| ensures Less(lte, keys[i]) {
        if i > lb {
          assert Less(keys[lb], keys[i]);
          Trichotomy(keys[lb], lte);
          if keys[lb] != lte {
            LessTransitive(lte, keys[lb], keys[i]);
          }
        } else {
          CompareFlip(keys[i], lte);
        }
      }
      forall i | 0 <= i <= pos ensures !Less(lte, keys[i]) {
        Trichotomy(keys[i], lte);
      }
      assert IsFirstAbove(keys, pos + 1, lte);
      FirstAboveUnique(keys, pos + 1, UpperBound(keys, lte), lte);
    }

    /** The `lt` branch of SeekToRange in reverse: seek, then step back over a key not below. */
    method SeekBelow(lt: Bytes)
      requires Inv()
      modifies this`pos
      ensures Inv() && pos == LowerBound(keys, lt) - 1 && IsLastBelow(keys, pos, lt)
    {
      EngineSeek(lt);
      ghost var lb := pos;
      if !EngineValid() {
        pos := |keys| - 1;
      } else if Compare(keys[pos], lt) >= 0 {
        EnginePrev();
      }
      assert IsFirstAtLeast(keys, pos + 1, lt) by {
        if pos + 1 < |keys| {
          assert pos + 1 == lb;
        }
      }
      FirstAtLeastUnique(keys, pos + 1, LowerBound(keys, lt), lt);
      AtLeastSplits(keys, pos + 1, lt);
    }

    /**
     * BaseIterator::Seek: forward, the first key at or after the target;
     * reverse, the last key at or before it; past the end when the target
     * is out of range or no such key exists.
     */
    method Seek(target: Bytes)
      requires !hasClosed && Inv()
      modifies this`pos, this`didSeek
      ensures Inv() && didSeek
      ensures OutOfRange(range, target) ==> !EngineValid()
      ensures !OutOfRange(range, target) && !reverse ==> IsFirstAtLeast(keys, pos, target)
      ensures !OutOfRange(range, target) && reverse ==> IsLastAtMost(keys, pos, target)
    {
      didSeek := true;
      if OutOfRange(range, target) {
        SeekToEnd();
        return;
      }
      EngineSeek(target);
      ghost var lb := pos;
      AtLeastSplits(keys, lb, target);
      if EngineValid() {
        var cmp := Compare(keys[pos], target);
        if reverse && cmp > 0 {
          Next();
          CompareFlip(keys[lb], target);
        } else if !reverse && cmp < 0 {
          // The engine's seek never lands before the target.
          assert false;
        }
      } else {
        SeekToFirst();
        if EngineValid() {
          var cmp := Compare(keys[pos], target);
          if reverse && cmp > 0 {
            // Every key is below the target, the last one included.
            assert false;
          } else if !reverse && cmp < 0 {
            SeekToEnd();
          }
        }
      }
      if reverse {
        forall i | pos < i < |keys| ensures Less(target, keys[i]) {
          assert i >= lb;
          Trichotomy(keys[i], target);
          if i > lb && keys[lb] == target {
            assert Less(keys[lb], keys[i]);
          } else if i == lb {
            CompareFlip(keys[lb], target);
          }
        }
        if pos >= 0 {
          Trichotomy(keys[pos], target);
        }
      }
    }
  }

  lemma FirstAtLeastUnique(ks: seq<Bytes>, p: int, q: int, t: Bytes)
    requires IsFirstAtLeast(ks, p, t) && IsFirstAtLeast(ks, q, t)
    ensures p == q
  {
  }

  lemma FirstAboveUnique(ks: seq<Bytes>, p: int, q: int, t: Bytes)
    requires IsFirstAbove(ks, p, t) && IsFirstAbove(ks, q, t)
    ensures p == q
  {
  }
}
