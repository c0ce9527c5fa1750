/** The round-robin LCI allocator shared by tun-gateway and tun-loopback: scan the
    range once from the cursor, take the first free LCI, leave the cursor after it. */
module RoundRobin {
  import opened Wire

  /** The LCIs start, ..., start + size - 1, with the cursor on one of them. */
  datatype Ring = Ring(start: nat, size: nat, next: nat) {
    predicate Valid() {
      start <= next < start + size
    }

    predicate Has(x: nat) {
      start <= x < start + size
    }

    // The i-th LCI tried by a scan.
    function At(i: nat): nat
      requires Valid()
    {
      start + (next - start + i) % size
    }

    // How many LCIs a scan tries before x.
    function Distance(x: nat): nat
      requires Valid() && Has(x)
    {
      if x >= next then x - next else x + size - next
    }

    function After(x: nat): Ring
      requires Has(x)
    {
      this.(next := start + (x - start + 1) % size)
    }
  }

  lemma ModOnce(a: nat, n: nat)
    requires 0 < n && a < 2 * n
    ensures a % n == if a < n then a else a - n
  {
    if a < n {
    } else {
      assert a == (a - n) + n;
      assert (a - n) % n == a - n;
      assert a / n == 1 by { assert a - n < n; }
    }
  }

  lemma AtDistance(r: Ring, i: nat)
    requires r.Valid() && i < r.size
    ensures r.Has(r.At(i)) && r.Distance(r.At(i)) == i
  {
    ModOnce(r.next - r.start + i, r.size);
  }

  lemma DistanceAt(r: Ring, x: nat)
    requires r.Valid() && r.Has(x)
    ensures r.Distance(x) < r.size && r.At(r.Distance(x)) == x
  {
    ModOnce(r.next - r.start + r.Distance(x), r.size);
  }

  lemma AfterCursor(r: Ring, x: nat)
    requires r.Valid() && r.Has(x)
    ensures r.After(x).Valid()
    ensures r.After(x).next == if x + 1 < r.start + r.size then x + 1 else r.start
  {
    ModOnce(x - r.start + 1, r.size);
  }

  function Scan(r: Ring, used: set<nat>, i: nat): Option<nat>
    requires r.Valid() && i <= r.size
    decreases r.size - i
  {
    if i == r.size then None
    else if r.At(i) !in used then Some(r.At(i))
    else Scan(r, used, i + 1)
  }

  function Pick(r: Ring, used: set<nat>): Option<nat>
    requires r.Valid()
  {
    Scan(r, used, 0)
  }

  lemma {:induction false} ScanIsFirst(r: Ring, used: set<nat>, i: nat)
    requires r.Valid() && i <= r.size
    ensures Scan(r, used, i).None? <==> forall j: nat :: i <= j < r.size ==> r.At(j) in used
    ensures Scan(r, used, i).Some? ==>
              exists j: nat :: i <= j < r.size && Scan(r, used, i) == Some(r.At(j)) && r.At(j) !in used
                               && forall k: nat :: i <= k < j ==> r.At(k) in used
    decreases r.size - i
  {
    if i < r.size && r.At(i) in used {
      ScanIsFirst(r, used, i + 1);
    }
  }

  /** Allocation fails only on exhaustion, and otherwise yields the free LCI that
      is cyclically nearest to the cursor. */
  lemma PickIsNearestFree(r: Ring, used: set<nat>)
    requires r.Valid()
    ensures Pick(r, used).None? <==> forall x: nat :: r.Has(x) ==> x in used
    ensures Pick(r, used).Some? ==>
              var x := Pick(r, used).value;
              r.Has(x) && x !in used && r.After(x).Valid()
              && forall y: nat :: r.Has(y) && y !in used ==> r.Distance(x) <= r.Distance(y)
  {
    ScanIsFirst(r, used, 0);
    if Pick(r, used).None? {
      forall x: nat | r.Has(x) ensures x in used {
        DistanceAt(r, x);
      }
    } else {
      var x := Pick(r, used).value;
      var j: nat :| j < r.size && x == r.At(j) && x !in used && forall k: nat :: k < j ==> r.At(k) in used;
      AtDistance(r, j);
      AfterCursor(r, x);
      forall y: nat | r.Has(y) && y !in used ensures j <= r.Distance(y) {
        DistanceAt(r, y);
      }
    }
  }

  /** A run of successful allocations; the set of LCIs in use may change arbitrarily
      between two of them. */
  ghost predicate Run(rings: seq<Ring>, used: seq<set<nat>>, picks: seq<nat>) {
    && |rings| == |picks| + 1 && |used| == |picks|
    && (forall i :: 0 <= i < |rings| ==> rings[i].Valid())
    && (forall i :: 0 <= i < |picks| ==>
          Pick(rings[i], used[i]) == Some(picks[i]) && rings[i].Has(picks[i])
          && rings[i + 1] == rings[i].After(picks[i]))
  }

  lemma {:induction false} RunKeepsRange(rings: seq<Ring>, used: seq<set<nat>>, picks: seq<nat>, i: nat)
    requires Run(rings, used, picks) && i < |rings|
    ensures rings[i].start == rings[0].start && rings[i].size == rings[0].size
  {
    if i > 0 {
      RunKeepsRange(rings, used, picks, i - 1);
      assert rings[i - 1 + 1] == rings[i - 1].After(picks[i - 1]);
    }
  }

  // One allocation that passes over a free x brings the cursor closer to x, and keeps
  // x ahead of every y it was ahead of.
  lemma PassedOver(r: Ring, used: set<nat>, x: nat, pick: nat)
    requires r.Valid() && r.Has(x) && x !in used && Pick(r, used) == Some(pick) && pick != x
    ensures r.Has(pick) && r.After(pick).Valid()
    ensures r.After(pick).Distance(x) < r.Distance(x)
    ensures forall y: nat :: r.Has(y) && r.Distance(x) < r.Distance(y) ==>
                               pick != y && r.After(pick).Distance(x) < r.After(pick).Distance(y)
    ensures r.After(pick).Distance(x) < r.After(pick).Distance(pick)
  {
    PickIsNearestFree(r, used);
    AfterCursor(r, pick);
  }

  /** Fairness: an LCI that stays free is handed out within Distance + 1 allocations,
      hence within one sweep of the range. */
  lemma {:induction false} FreeLciIsChosen(rings: seq<Ring>, used: seq<set<nat>>, picks: seq<nat>, x: nat)
    requires Run(rings, used, picks)
    requires rings[0].Has(x) && |picks| > rings[0].Distance(x)
    requires forall i :: 0 <= i < |picks| ==> x !in used[i]
    ensures exists i :: 0 <= i <= rings[0].Distance(x) && picks[i] == x
    decreases |picks|
  {
    assert Pick(rings[0], used[0]) == Some(picks[0]);
    if picks[0] != x {
      PassedOver(rings[0], used[0], x, picks[0]);
      assert rings[0 + 1] == rings[0].After(picks[0]);
      assert Run(rings[1..], used[1..], picks[1..]) by {
        forall i | 0 <= i < |picks| - 1
          ensures Pick(rings[1..][i], used[1..][i]) == Some(picks[1..][i])
          ensures rings[1..][i].Has(picks[1..][i]) && rings[1..][i + 1] == rings[1..][i].After(picks[1..][i])
        {
          assert Pick(rings[i + 1], used[i + 1]) == Some(picks[i + 1]);
          assert rings[i + 1 + 1] == rings[i + 1].After(picks[i + 1]);
        }
      }
      FreeLciIsChosen(rings[1..], used[1..], picks[1..], x);
      var i :| 0 <= i <= rings[1].Distance(x) && picks[1..][i] == x;
      assert picks[i + 1] == x;
    }
  }

  /** No early reuse: between two allocations of the same LCI, every other LCI that was
      never in use has been handed out as well. */
  lemma NoReuseWhileOtherFree(rings: seq<Ring>, used: seq<set<nat>>, picks: seq<nat>, i: nat, j: nat, x: nat)
    requires Run(rings, used, picks)
    requires i < j < |picks| && picks[i] == picks[j]
    requires rings[0].Has(x) && x != picks[i]
    requires forall k :: i < k <= j ==> x !in used[k]
    ensures exists k :: i < k < j && picks[k] == x
  {
    if forall k :: i < k < j ==> picks[k] != x {
      StaysAhead(rings, used, picks, i, j, x);
      assert Pick(rings[j], used[j]) == Some(picks[j]);
      PassedOver(rings[j], used[j], x, picks[j]);
      assert false;
    }
  }

  lemma {:induction false} StaysAhead(rings: seq<Ring>, used: seq<set<nat>>, picks: seq<nat>, i: nat, j: nat, x: nat)
    requires Run(rings, used, picks)
    requires i < j < |picks|
    requires rings[0].Has(x) && x != picks[i]
    requires forall k :: i < k < j ==> x !in used[k] && picks[k] != x
    ensures rings[j].Has(x) && rings[j].Has(picks[i]) && rings[j].Distance(x) < rings[j].Distance(picks[i])
  {
    RunKeepsRange(rings, used, picks, i);
    assert rings[i].Has(picks[i]);
    if j == i + 1 {
      AfterCursor(rings[i], picks[i]);
    } else {
      StaysAhead(rings, used, picks, i, j - 1, x);
      assert Pick(rings[j - 1], used[j - 1]) == Some(picks[j - 1]);
      PassedOver(rings[j - 1], used[j - 1], x, picks[j - 1]);
      assert rings[j - 1 + 1] == rings[j - 1].After(picks[j - 1]);
    }
  }
}
