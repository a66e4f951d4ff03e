/** The FAQ accordion: the list of open item indices and its toggle. */
module Faq {
  import opened Seqs

  /** No index occurs twice. */
  predicate NoDuplicates(s: seq<int>) {
    forall i, j :: 0 <= i < j < |s| ==> s[i] != s[j]
  }

  /** The next `openItems` after `toggleItem(index)`: without `index` when
      it is open, else with `index` appended. */
  function Toggled(prev: seq<int>, index: int): (r: seq<int>)
    ensures index in r <==> index !in prev
    ensures forall j :: j != index ==> (j in r <==> j in prev)
    ensures index !in prev ==> r == prev + [index]
    ensures index in prev ==> IsSubsequence(r, prev)
  {
    if index in prev then
      FilterIsSubsequence(prev, (i: int) => i != index);
      Filter(prev, (i: int) => i != index)
    else prev + [index]
  }

  /** Removing an element keeps a sequence free of duplicates. */
  lemma {:induction false} FilterKeepsNoDuplicates(s: seq<int>, index: int)
    requires NoDuplicates(s)
    ensures NoDuplicates(Filter(s, (i: int) => i != index))
  {
    if s != [] {
      var p := (i: int) => i != index;
      assert NoDuplicates(s[1..]) by {
        forall a, b | 0 <= a < b < |s[1..]| ensures s[1..][a] != s[1..][b] {
          assert s[1..][a] == s[a + 1] && s[1..][b] == s[b + 1];
        }
      }
      FilterKeepsNoDuplicates(s[1..], index);
      if p(s[0]) {
        var rest := Filter(s[1..], p);
        assert Filter(s, p) == [s[0]] + rest;
        assert s[0] !in s[1..] by {
          forall k | 0 <= k < |s[1..]| ensures s[1..][k] != s[0] {
            assert s[1..][k] == s[k + 1];
          }
        }
        assert s[0] !in rest;
      }
    }
  }

  /** Toggling never introduces a duplicate index. */
  lemma ToggleKeepsNoDuplicates(prev: seq<int>, index: int)
    requires NoDuplicates(prev)
    ensures NoDuplicates(Toggled(prev, index))
  {
    if index in prev {
      FilterKeepsNoDuplicates(prev, index);
    }
  }

  /** Toggling the same index twice restores every membership; from a
      closed index it restores the very sequence. */
  lemma ToggleTwice(prev: seq<int>, index: int)
    ensures forall j :: j in Toggled(Toggled(prev, index), index) <==> j in prev
    ensures index !in prev ==> Toggled(Toggled(prev, index), index) == prev
  {
    if index !in prev {
      var p := (i: int) => i != index;
      FilterAll(prev, p);
      FilterAppend(prev, [index], p);
      assert Filter([index], p) == [];
    }
  }

  /** The accordion's state. */
  class Accordion {
    var openItems: seq<int>

    /** `useState<number[]>([])`: every item starts closed. */
    constructor ()
      ensures openItems == []
    {
      openItems := [];
    }

    /** An item renders open (arrow rotated, answer expanded) when its
        index is in `openItems`. */
    predicate IsOpen(index: int)
      reads this
    {
      index in openItems
    }

    /** `toggleItem(index)`: the item flips between open and closed; every
        other item keeps its state; no index is ever listed twice. */
    method Toggle(index: int)
      modifies this
      ensures openItems == Toggled(old(openItems), index)
      ensures IsOpen(index) <==> !old(IsOpen(index))
      ensures forall j :: j != index ==> (IsOpen(j) <==> old(IsOpen(j)))
      ensures NoDuplicates(old(openItems)) ==> NoDuplicates(openItems)
    {
      if NoDuplicates(openItems) {
        ToggleKeepsNoDuplicates(openItems, index);
      }
      openItems := Toggled(openItems, index);
    }
  }
}
