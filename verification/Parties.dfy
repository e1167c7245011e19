/** Lists of parties: sorted, without duplicates, and searched by bisection. */
module Parties {
  import opened Party

  /** The order of byte strings. */
  predicate Less(a: seq<Byte>, b: seq<Byte>) {
    |b| > 0 && (|a| == 0 || a[0] < b[0] || (a[0] == b[0] && Less(a[1..], b[1..])))
  }

  /** a comes before b: it is a proper prefix, or smaller at the first byte in which they differ. */
  lemma {:induction false} LessIff(a: seq<Byte>, b: seq<Byte>)
    ensures Less(a, b) <==> exists k: nat :: FirstDifference(a, b, k)
  {
    if |a| == 0 || |b| == 0 || a[0] != b[0] {
      assert |a| == 0 < |b| ==> FirstDifference(a, b, 0);
      assert |a| > 0 && |b| > 0 && a[0] < b[0] ==> FirstDifference(a, b, 0);
    } else {
      LessIff(a[1..], b[1..]);
      if k: nat :| FirstDifference(a[1..], b[1..], k) {
        assert a[..k + 1] == [a[0]] + a[1..][..k] && b[..k + 1] == [b[0]] + b[1..][..k];
        assert FirstDifference(a, b, k + 1);
      }
      if k: nat :| FirstDifference(a, b, k) {
        assert k > 0;
        assert a[1..][..k - 1] == a[..k][1..] && b[1..][..k - 1] == b[..k][1..];
        assert FirstDifference(a[1..], b[1..], k - 1);
      }
    }
  }

  ghost predicate FirstDifference(a: seq<Byte>, b: seq<Byte>, k: nat) {
    k <= |a| && k < |b| && a[..k] == b[..k] && (k == |a| || a[k] < b[k])
  }

  predicate Before(a: ID, b: ID) {
    Less(a.name, b.name)
  }

  lemma {:induction false} LessTotal(a: seq<Byte>, b: seq<Byte>)
    ensures !(Less(a, b) && Less(b, a)) && (a != b <==> Less(a, b) || Less(b, a))
  {
    if |a| > 0 && |b| > 0 && a[0] == b[0] {
      LessTotal(a[1..], b[1..]);
      assert a == [a[0]] + a[1..] && b == [b[0]] + b[1..];
    }
  }

  lemma {:induction false} LessTransitive(a: seq<Byte>, b: seq<Byte>, c: seq<Byte>)
    requires Less(a, b) && Less(b, c)
    ensures Less(a, c)
  {
    if |a| > 0 && a[0] == b[0] == c[0] {
      LessTransitive(a[1..], b[1..], c[1..]);
    }
  }

  /** Every party comes before all later ones. */
  ghost predicate Sorted(ids: seq<ID>) {
    forall i, j :: 0 <= i < j < |ids| ==> Before(ids[i], ids[j])
  }

  lemma SortedDistinct(ids: seq<ID>)
    requires Sorted(ids)
    ensures forall i, j :: 0 <= i < j < |ids| ==> ids[i] != ids[j]
  {
    forall i, j | 0 <= i < j < |ids| ensures ids[i] != ids[j] {
      LessTotal(ids[i].name, ids[j].name);
    }
  }

  lemma {:induction false} AdjacentSorted(ids: seq<ID>, i: nat, j: nat)
    requires (forall k :: 0 < k < |ids| ==> Before(ids[k - 1], ids[k])) && i < j < |ids|
    ensures Before(ids[i], ids[j])
  {
    if i < j - 1 {
      AdjacentSorted(ids, i, j - 1);
      assert Before(ids[j - 1], ids[j]);
      LessTransitive(ids[i].name, ids[j - 1].name, ids[j].name);
    }
  }

  /** IDSlice.Valid compares neighbours only. */
  method Valid(ids: seq<ID>) returns (ok: bool)
    ensures ok <==> Sorted(ids)
  {
    var i := 1;
    while i < |ids|
      invariant 1 <= i
      invariant forall k :: 0 < k < i && k < |ids| ==> Before(ids[k - 1], ids[k])
    {
      if !Before(ids[i - 1], ids[i]) {
        return false;
      }
      i := i + 1;
    }
    forall i, j | 0 <= i < j < |ids| ensures Before(ids[i], ids[j]) {
      AdjacentSorted(ids, i, j);
    }
    return true;
  }

  /** IDSlice.Contains for one party: bisection for the first that does not come before it. */
  method Contains(ids: seq<ID>, id: ID) returns (found: bool)
    requires Sorted(ids)
    ensures found <==> id in ids
  {
    var low, high := 0, |ids|;
    while low < high
      invariant 0 <= low <= high <= |ids|
      invariant forall k :: 0 <= k < low ==> Before(ids[k], id)
      invariant forall k :: high <= k < |ids| ==> !Before(ids[k], id)
    {
      var middle := (low + high) / 2;
      if Before(ids[middle], id) {
        Below(ids, id, middle);
        low := middle + 1;
      } else {
        Above(ids, id, middle);
        high := middle;
      }
    }
    found := low < |ids| && ids[low] == id;
    if id in ids {
      var k :| 0 <= k < |ids| && ids[k] == id;
      LessTotal(id.name, id.name);
      assert low <= k;
      assert low < k ==> Before(ids[low], ids[k]);
    }
  }

  lemma Below(ids: seq<ID>, id: ID, middle: nat)
    requires Sorted(ids) && middle < |ids| && Before(ids[middle], id)
    ensures forall k :: 0 <= k <= middle ==> Before(ids[k], id)
  {
    forall k | 0 <= k < middle ensures Before(ids[k], id) {
      LessTransitive(ids[k].name, ids[middle].name, id.name);
    }
  }

  lemma Above(ids: seq<ID>, id: ID, middle: nat)
    requires Sorted(ids) && middle < |ids| && !Before(ids[middle], id)
    ensures forall k :: middle <= k < |ids| ==> !Before(ids[k], id)
  {
    forall k | middle < k < |ids| ensures !Before(ids[k], id) {
      if Before(ids[k], id) {
        LessTransitive(ids[middle].name, ids[k].name, id.name);
      }
    }
  }
}
