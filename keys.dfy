// Byte-wise ordering of keys, as rocksdb::Slice::compare (memcmp on the
// common prefix, then the shorter slice first) defines it.

module Keys {
  import opened Common

  /** Three-way comparison: negative, zero or positive. */
  function Compare(a: Bytes, b: Bytes): (c: int)
    ensures -1 <= c <= 1
    ensures c == 0 <==> a == b
    decreases |a|
  {
    if |a| == 0 && |b| == 0 then 0
    else if |a| == 0 then -1
    else if |b| == 0 then 1
    else if a[0] < b[0] then -1
    else if a[0] > b[0] then 1
    else
      var r := Compare(a[1..], b[1..]);
      assert r == 0 ==> a == [a[0]] + a[1..] == [b[0]] + b[1..] == b;
      r
  }

  predicate Less(a: Bytes, b: Bytes) {
    Compare(a, b) < 0
  }

  lemma {:induction false} CompareFlip(a: Bytes, b: Bytes)
    ensures Compare(a, b) == -Compare(b, a)
    decreases |a|
  {
    if |a| > 0 && |b| > 0 && a[0] == b[0] {
      CompareFlip(a[1..], b[1..]);
    }
  }

  lemma {:induction false} LessTransitive(a: Bytes, b: Bytes, c: Bytes)
    requires Less(a, b) && Less(b, c)
    ensures Less(a, c)
    decreases |a|
  {
    if |a| > 0 && |b| > 0 && |c| > 0 && a[0] == b[0] && b[0] == c[0] {
      LessTransitive(a[1..], b[1..], c[1..]);
    }
  }

  /** Exactly one of a < b, a == b, b < a holds. */
  lemma Trichotomy(a: Bytes, b: Bytes)
    ensures Less(a, b) || a == b || Less(b, a)
    ensures !(Less(a, b) && Less(b, a))
  {
    CompareFlip(a, b);
  }

  /** The shape of a RocksDB key space: strictly increasing keys. */
  predicate StrictlySorted(ks: seq<Bytes>) {
    forall i, j :: 0 <= i < j < |ks| ==> Less(ks[i], ks[j])
  }

  /** Adjacent order suffices for strict sortedness. */
  lemma {:induction false} SortedFromAdjacent(ks: seq<Bytes>)
    requires forall i :: 0 <= i < |ks| - 1 ==> Less(ks[i], ks[i + 1])
    ensures StrictlySorted(ks)
    decreases |ks|
  {
    if |ks| > 1 {
      var tail := ks[1..];
      assert forall i :: 0 <= i < |tail| - 1 ==> Less(tail[i], tail[i + 1]) by {
        forall i | 0 <= i < |tail| - 1 ensures Less(tail[i], tail[i + 1]) {
          assert tail[i] == ks[i + 1] && tail[i + 1] == ks[i + 2];
        }
      }
      SortedFromAdjacent(tail);
      forall i, j | 0 <= i < j < |ks| ensures Less(ks[i], ks[j]) {
        if i > 0 {
          assert ks[i] == tail[i - 1] && ks[j] == tail[j - 1];
        } else if j > 1 {
          assert ks[j] == tail[j - 1] && ks[1] == tail[0];
          LessTransitive(ks[0], ks[1], ks[j]);
        }
      }
    }
  }
}
