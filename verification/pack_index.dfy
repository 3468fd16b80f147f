/**
 * The index list of a Packed node (src/codegen.c:1766-1904): the entries
 * of a per-depth list that are present, in order.
 */
module PackIndex {
  import opened Wrappers

  /** The indices, from `i` on, of the parts that are present. */
  function Present<T>(parts: seq<Option<T>>, i: nat): (r: seq<nat>)
    requires i <= |parts|
    decreases |parts| - i
    ensures forall k | 0 <= k < |r| :: i <= r[k] < |parts| && parts[r[k]].Some?
  {
    if i == |parts| then []
    else
      var idx := Present(parts, i + 1);
      if parts[i].Some? then [i] + idx else idx
  }

  /** Present lists the present parts in increasing order. */
  lemma {:induction false} PresentSorted<T>(parts: seq<Option<T>>, i: nat)
    requires i <= |parts|
    decreases |parts| - i
    ensures forall k, l | 0 <= k < l < |Present(parts, i)| :: Present(parts, i)[k] < Present(parts, i)[l]
  {
    if i < |parts| {
      PresentSorted(parts, i + 1);
      var idx := Present(parts, i + 1);
      if parts[i].Some? {
        var all := [i] + idx;
        assert Present(parts, i) == all;
        forall k, l | 0 <= k < l < |all| ensures all[k] < all[l] {
          assert all[l] == idx[l - 1];
          if k > 0 {
            assert all[k] == idx[k - 1];
          } else {
            assert i + 1 <= idx[l - 1];
          }
        }
      } else {
        assert Present(parts, i) == idx;
      }
    }
  }

  /** Present lists every present part. */
  lemma {:induction false} PresentAll<T>(parts: seq<Option<T>>, i: nat)
    requires i <= |parts|
    decreases |parts| - i
    ensures forall j {:trigger j in Present(parts, i)} | i <= j < |parts| :: parts[j].Some? <==> j in Present(parts, i)
  {
    if i < |parts| {
      PresentAll(parts, i + 1);
      var idx := Present(parts, i + 1);
      var all := Present(parts, i);
      if parts[i].Some? {
        assert all == [i] + idx;
      } else {
        assert all == idx;
      }
      forall j | i <= j < |parts| ensures parts[j].Some? <==> j in all {
        if j > i {
          assert j in all <==> j in idx;
        }
      }
    }
  }
}
