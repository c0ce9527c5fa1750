/** The loopback session manager object: the slot array indexed by node and LCI, and the
    reserved relay LCIs of each node, changed in place as LoopTable specifies. */
module LoopManager {
  import opened Wire
  import opened LoopTable
  import opened LoopRelay

  class Manager {
    const slots: array2<LoopSession?>
    var usedLCI: seq<set<nat>>
    ghost var table: Table

    ghost predicate Valid()
      reads this, slots
    {
      && slots.Length1 == 4096 && |usedLCI| == slots.Length0
      && (forall e :: e in table.slots ==> InGrid(e) && Between(table.slots[e]))
      && (forall n, lci :: 0 <= n < slots.Length0 && 0 <= lci < 4096 ==> slots[n, lci] == At(table, n, lci))
      && (forall e :: e in table.used <==> e.node < |usedLCI| && e.lci in usedLCI[e.node])
    }

    predicate InGrid(e: Endpoint) {
      e.node < slots.Length0 && e.lci < 4096
    }

    static function At(t: Table, n: nat, lci: nat): LoopSession? {
      if Endpoint(n, lci) in t.slots then t.slots[Endpoint(n, lci)] else null
    }

    // e comes before slot (n, i) in scan order.
    predicate Before(e: Endpoint, n: nat, i: nat) {
      e.node < n || (e.node == n && e.lci < i)
    }

    predicate Between(s: LoopSession) {
      s.tunA < slots.Length0 && s.tunB < slots.Length0
    }

    constructor (numNodes: nat)
      ensures Valid() && slots.Length0 == numNodes && table == Table(map[], {})
      ensures fresh(slots)
    {
      slots := new LoopSession?[numNodes, 4096]((n, lci) => null);
      usedLCI := seq(numNodes, n => {});
      table := Table(map[], {});
    }

    method Get(n: nat, lci: Lci) returns (s: LoopSession?)
      requires Valid() && n < slots.Length0
      ensures s == At(table, n, lci)
    {
      s := slots[n, lci];
    }

    method Add(s: LoopSession)
      requires Valid() && Between(s)
      modifies this, slots
      ensures Valid() && table == LoopTable.Add(old(table), s)
    {
      slots[s.tunA, s.lciA] := s;
      slots[s.tunB, s.lciB] := s;
      usedLCI := usedLCI[s.tunB := usedLCI[s.tunB] + {s.lciB}];
      table := LoopTable.Add(table, s);
    }

    method Remove(s: LoopSession)
      requires Valid() && Between(s)
      modifies this, slots
      ensures Valid() && table == LoopTable.Remove(old(table), s)
    {
      slots[s.tunA, s.lciA] := null;
      slots[s.tunB, s.lciB] := null;
      usedLCI := usedLCI[s.tunB := usedLCI[s.tunB] - {s.lciB}];
      table := LoopTable.Remove(table, s);
    }

    /** Collect every call touching the node once, although each sits in two slots, and
        remove them one by one. */
    method RemoveAllForNode(node: nat) returns (dead: seq<LoopSession>)
      requires Valid()
      modifies this, slots
      ensures Valid() && Lists(dead, old(table), node)
      ensures forall s :: s in dead ==> Between(s)
      ensures table == Cleared(old(table), dead)
      ensures Consistent(old(table)) ==> table == RemoveNode(old(table), node)
    {
      var seen := CollectForNode(node);
      dead := Listing(seen);
      assert Lists(dead, table, node);
      ghost var before := table;
      for i := 0 to |dead|
        invariant Valid() && table == Cleared(before, dead[..i])
      {
        assert dead[..i + 1][..i] == dead[..i];
        Remove(dead[i]);
      }
      assert dead[..|dead|] == dead;
      if Consistent(before) {
        ClearedIsRemoveNode(before, dead, node);
      }
    }

    method CollectForNode(node: nat) returns (seen: set<LoopSession>)
      requires Valid()
      ensures forall s :: s in seen ==> s in table.slots.Values && Touches(s, node)
      ensures forall e :: e in table.slots && Touches(table.slots[e], node) ==> table.slots[e] in seen
      ensures forall s :: s in seen ==> Between(s)
    {
      seen := {};
      for n := 0 to slots.Length0
        invariant forall s :: s in seen ==> s in table.slots.Values && Touches(s, node) && Between(s)
        invariant forall e :: e in table.slots && Touches(table.slots[e], node) && e.node < n ==> table.slots[e] in seen
      {
        for i := 0 to 4096
          invariant forall s :: s in seen ==> s in table.slots.Values && Touches(s, node) && Between(s)
          invariant forall e :: e in table.slots && Touches(table.slots[e], node) && Before(e, n, i) ==>
                                  table.slots[e] in seen
        {
          var s := slots[n, i];
          assert s == At(table, n, i);
          if s != null && (s.tunA == node || s.tunB == node) {
            assert Endpoint(n, i) in table.slots;
            seen := seen + {s};
          }
        }
      }
    }
  }

  // A set's elements, each once, in an arbitrary order.
  method Listing(all: set<LoopSession>) returns (xs: seq<LoopSession>)
    ensures forall i, j :: 0 <= i < j < |xs| ==> xs[i] != xs[j]
    ensures forall s :: s in xs <==> s in all
  {
    xs := [];
    var todo := all;
    while todo != {}
      invariant todo <= all
      invariant forall i, j :: 0 <= i < j < |xs| ==> xs[i] != xs[j]
      invariant forall s :: s in xs <==> s in all && s !in todo
      decreases todo
    {
      var s :| s in todo;
      todo := todo - {s};
      xs := xs + [s];
    }
  }
}
