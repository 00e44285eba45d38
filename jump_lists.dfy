/**
 * Jump lists and backpatching. A jump list holds the indices of
 * instructions emitted without their jump target; backpatching appends
 * the target label to the text of each of them.
 */
module JumpLists {
  import opened Wrappers
  import opened Strings

  /** The indices of instructions still waiting for a target, in list order. */
  type JumpList = seq<int>

  /** The list holding the single pending jump `referencia` (`sem_makelist`). */
  function MakeList(referencia: int): (l: JumpList)
    ensures multiset(l) == multiset{referencia}
  {
    [referencia]
  }

  /**
   * `sem_merge`: when either list is empty the other one is returned as is;
   * otherwise `l2` is hung after the last node of `l1`.
   */
  function Merge(l1: JumpList, l2: JumpList): (l: JumpList)
    ensures l == l1 + l2
    ensures multiset(l) == multiset(l1) + multiset(l2)
  {
    if l1 == [] then l2
    else if l2 == [] then l1
    else l1 + l2
  }

  /** What one backpatch appends to an instruction's text: `" %d"` of the label. */
  function Target(lbl: int): string
  {
    " " + IntToString(lbl)
  }

  /** `k` successive targets `lbl`. */
  function Targets(lbl: int, k: nat): string
  {
    if k == 0 then "" else Targets(lbl, k - 1) + Target(lbl)
  }

  /**
   * Completes the instruction at `ref` if it exists: it lies below the next
   * index and its slot is not NULL. Anything else is skipped.
   */
  function PatchOne(instrs: seq<Option<string>>, next: int, ref: int, lbl: int): (r: seq<Option<string>>)
    ensures |r| == |instrs|
    ensures forall j :: 0 <= j < |r| ==> (r[j].Some? <==> instrs[j].Some?)
  {
    if 0 <= ref < next && ref < |instrs| && instrs[ref].Some?
    then instrs[ref := Some(instrs[ref].value + Target(lbl))]
    else instrs
  }

  /** `sem_backpatch`: the list's nodes are visited from first to last. */
  function Backpatch(instrs: seq<Option<string>>, next: int, l: JumpList, lbl: int): (r: seq<Option<string>>)
    ensures |r| == |instrs|
    ensures forall j :: 0 <= j < |r| ==> (r[j].Some? <==> instrs[j].Some?)
    decreases |l|
  {
    if l == [] then instrs
    else PatchOne(Backpatch(instrs, next, l[..|l| - 1], lbl), next, l[|l| - 1], lbl)
  }

  lemma PatchOneAt(instrs: seq<Option<string>>, next: int, ref: int, lbl: int, j: int)
    requires 0 <= j < |instrs|
    ensures PatchOne(instrs, next, ref, lbl)[j] ==
            if ref == j && j < next && instrs[j].Some?
            then Some(instrs[j].value + Target(lbl))
            else instrs[j]
  {
  }

  /** Backpatching a one-element list completes that one instruction. */
  lemma BackpatchSingle(instrs: seq<Option<string>>, next: int, ref: int, lbl: int)
    ensures Backpatch(instrs, next, [ref], lbl) == PatchOne(instrs, next, ref, lbl)
  {
    assert [ref][..0] == [];
  }

  /** One more target appended after `k` of them makes `k + 1`. */
  lemma TargetsStep(v: string, lbl: int, k: nat)
    ensures (v + Targets(lbl, k)) + Target(lbl) == v + Targets(lbl, k + 1)
  {
    assert Targets(lbl, k + 1) == Targets(lbl, k) + Target(lbl);
  }

  /**
   * The effect of a backpatch on one slot: an existing instruction below
   * `next` gets the target appended once for every time its index occurs
   * in the list; every other slot is left as it was.
   */
  lemma {:induction false} BackpatchAt(instrs: seq<Option<string>>, next: int, l: JumpList, lbl: int, j: int)
    requires 0 <= j < |instrs|
    ensures Backpatch(instrs, next, l, lbl)[j] ==
            if j < next && instrs[j].Some?
            then Some(instrs[j].value + Targets(lbl, multiset(l)[j]))
            else instrs[j]
    decreases |l|
  {
    if l == [] {
      assert multiset(l)[j] == 0;
      if j < next && instrs[j].Some? {
        assert instrs[j].value + Targets(lbl, 0) == instrs[j].value;
      }
    } else {
      var init, ref := l[..|l| - 1], l[|l| - 1];
      assert l == init + [ref];
      var count := multiset(l)[j];
      assert count == multiset(init)[j] + (if ref == j then 1 else 0);
      var mid := Backpatch(instrs, next, init, lbl);
      BackpatchAt(instrs, next, init, lbl, j);
      PatchOneAt(mid, next, ref, lbl, j);
      if j < next && instrs[j].Some? && ref == j {
        TargetsStep(instrs[j].value, lbl, multiset(init)[j]);
      }
    }
  }

  /** Backpatching a list with one more index at its end: that index is patched last. */
  lemma BackpatchSnoc(instrs: seq<Option<string>>, next: int, l: JumpList, ref: int, lbl: int)
    ensures Backpatch(instrs, next, l + [ref], lbl) == PatchOne(Backpatch(instrs, next, l, lbl), next, ref, lbl)
  {
    assert (l + [ref])[..|l|] == l;
  }

  /** Backpatching a concatenation is backpatching its two parts one after the other. */
  lemma {:induction false} BackpatchAppend(instrs: seq<Option<string>>, next: int, l1: JumpList, l2: JumpList, lbl: int)
    ensures Backpatch(instrs, next, l1 + l2, lbl) == Backpatch(Backpatch(instrs, next, l1, lbl), next, l2, lbl)
    decreases |l2|
  {
    if l2 == [] {
      assert l1 + l2 == l1;
    } else {
      var init, ref := l2[..|l2| - 1], l2[|l2| - 1];
      assert l2 == init + [ref];
      assert l1 + l2 == (l1 + init) + [ref];
      BackpatchSnoc(instrs, next, l1 + init, ref, lbl);
      BackpatchSnoc(Backpatch(instrs, next, l1, lbl), next, init, ref, lbl);
      BackpatchAppend(instrs, next, l1, init, lbl);
    }
  }

  /** Backpatching a merged list is backpatching its two parts one after the other. */
  lemma BackpatchMerge(instrs: seq<Option<string>>, next: int, l1: JumpList, l2: JumpList, lbl: int)
    ensures Backpatch(instrs, next, Merge(l1, l2), lbl)
         == Backpatch(Backpatch(instrs, next, l1, lbl), next, l2, lbl)
  {
    BackpatchAppend(instrs, next, l1, l2, lbl);
  }

  /** The order in which two lists are merged does not matter to the final code. */
  lemma BackpatchMergeCommutes(instrs: seq<Option<string>>, next: int, l1: JumpList, l2: JumpList, lbl: int)
    ensures Backpatch(instrs, next, Merge(l1, l2), lbl) == Backpatch(instrs, next, Merge(l2, l1), lbl)
  {
    var a := Backpatch(instrs, next, Merge(l1, l2), lbl);
    var b := Backpatch(instrs, next, Merge(l2, l1), lbl);
    forall j | 0 <= j < |instrs|
      ensures a[j] == b[j]
    {
      BackpatchAt(instrs, next, Merge(l1, l2), lbl, j);
      BackpatchAt(instrs, next, Merge(l2, l1), lbl, j);
    }
  }

  /** A list none of whose indices names an existing instruction changes nothing. */
  lemma {:induction false} BackpatchSkipsAll(instrs: seq<Option<string>>, next: int, l: JumpList, lbl: int)
    requires forall k :: 0 <= k < |l| ==> !(0 <= l[k] < next && l[k] < |instrs| && instrs[l[k]].Some?)
    ensures Backpatch(instrs, next, l, lbl) == instrs
    decreases |l|
  {
    if l != [] {
      BackpatchSkipsAll(instrs, next, l[..|l| - 1], lbl);
    }
  }
}
