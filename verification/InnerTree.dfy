/** Upserts into the tree of inner nodes, down to the node above the leaves. */
module InnerTree {
  import opened Placement
  import opened InnerNode
  import opened PlinTree

  // ----- where a tree leads

  /** The child under minKey leads to the leaf with first key k. */
  ghost predicate LeadsAt(minKey: real, child: Node, k: real, leaf: nat)
    decreases child, 1
  {
    match child
    case LeafRef(x) => minKey == k && x == leaf
    case Inner(_, _) => Leads(child, k, leaf)
  }

  /** Some bottom slot of the tree holds the leaf under its first key k. */
  ghost predicate Leads(n: Node, k: real, leaf: nat)
    decreases n, 0
  {
    && n.Inner?
    && exists i :: 0 <= i < |n.slots| && n.slots[i].Used? && LeadsAt(n.slots[i].minKey, n.slots[i].node, k, leaf)
  }

  /** k lies between the i-th slot's key and the next greater slot key. */
  ghost predicate Between(slots: seq<Slot<Node>>, minKey: real, k: real) {
    minKey <= k && forall j :: 0 <= j < |slots| && slots[j].Used? && minKey < slots[j].minKey ==> k < slots[j].minKey
  }

  /** An inner child begins with the key of its slot and leads to keys below the next slot only. */
  ghost predicate ChildFits(slots: seq<Slot<Node>>, minKey: real, child: Node) {
    child.Inner? ==>
      && HasSlot(child.slots, minKey)
      && forall k, leaf :: Leads(child, k, leaf) ==> Between(slots, minKey, k)
  }

  ghost predicate TreeOk(n: Node)
    decreases n
  {
    n.Inner? ==>
      && Inv(n.model, n.slots)
      && forall i :: 0 <= i < |n.slots| && n.slots[i].Used? ==>
           TreeOk(n.slots[i].node) && ChildFits(n.slots, n.slots[i].minKey, n.slots[i].node)
  }

  lemma ChildAtSlot(n: Node, i: nat)
    requires TreeOk(n) && n.Inner? && i < |n.slots| && n.slots[i].Used?
    ensures TreeOk(n.slots[i].node) && ChildFits(n.slots, n.slots[i].minKey, n.slots[i].node) && Inv(n.model, n.slots)
  {}

  /** Keys a child leads to lie between its slot's key and the next. */
  lemma LeadsBetween(n: Node, i: nat, k: real, leaf: nat)
    requires TreeOk(n) && n.Inner? && i < |n.slots| && n.slots[i].Used?
    requires LeadsAt(n.slots[i].minKey, n.slots[i].node, k, leaf)
    ensures Between(n.slots, n.slots[i].minKey, k)
  {
    hide Inv, Leads;
    ChildAtSlot(n, i);
  }

  /** Only the predecessor slot of a key can lead to that key. */
  lemma OneSlot(n: Node, key: real, slot: nat, i: nat, k: real, leaf: nat)
    requires TreeOk(n) && n.Inner? && Ordered(n.slots) && IsPredecessor(n.slots, key, slot)
    requires i < |n.slots| && n.slots[i].Used? && LeadsAt(n.slots[i].minKey, n.slots[i].node, k, leaf)
    ensures i != slot && k <= key ==> k < n.slots[slot].minKey
    ensures i == slot ==> n.slots[slot].minKey <= k
  {
    hide TreeOk, LeadsAt;
    LeadsBetween(n, i, k, leaf);
    if i != slot && k <= key {
      assert n.slots[i].minKey <= n.slots[slot].minKey;
      assert n.slots[i].minKey != n.slots[slot].minKey;
    }
  }

  // ----- search

  /** k is the greatest first key at or below `key` that the tree leads to. */
  ghost predicate IsLeafFor(n: Node, key: real, k: real, leaf: nat) {
    Leads(n, k, leaf) && k <= key && forall k', l :: Leads(n, k', l) && k' <= key ==> k' <= k
  }

  lemma SlotKeyReaches(slots: seq<Slot<Node>>, k: real, key: real)
    requires HasSlot(slots, k) && k <= key
    ensures Reaches(slots, key)
  {}

  method FindLeaf(n: Node, key: real) returns (leaf: nat, ghost k: real)
    requires TreeOk(n) && n.Inner? && Reaches(n.slots, key)
    ensures IsLeafFor(n, key, k, leaf)
    decreases n
  {
    hide Inv, Leads, Reaches, TreeOk;
    TreeHasInv(n);
    var slot := FindSlot(n.model, n.slots, key);
    var child := n.slots[slot].node;
    ChildAtSlot(n, slot);
    if child.LeafRef? {
      leaf, k := child.index, n.slots[slot].minKey;
    } else {
      SlotKeyReaches(child.slots, n.slots[slot].minKey, key);
      leaf, k := FindLeaf(child, key);
    }
    BestOfSlot(n, key, slot, k, leaf);
  }

  lemma TreeHasInv(n: Node)
    requires TreeOk(n) && n.Inner?
    ensures Inv(n.model, n.slots) && Ordered(n.slots) && n.model.blocks >= 4
  {}

  /** The best leaf behind the predecessor slot is the best leaf of the tree. */
  lemma BestOfSlot(n: Node, key: real, slot: nat, k: real, leaf: nat)
    requires TreeOk(n) && n.Inner? && IsPredecessor(n.slots, key, slot)
    requires LeadsAt(n.slots[slot].minKey, n.slots[slot].node, k, leaf) && k <= key
    requires n.slots[slot].node.Inner? ==> IsLeafFor(n.slots[slot].node, key, k, leaf)
    ensures IsLeafFor(n, key, k, leaf)
  {
    hide TreeOk;
    TreeHasInv(n);
    OneSlot(n, key, slot, slot, k, leaf);
    forall k', l | Leads(n, k', l) && k' <= key ensures k' <= k {
      var i :| 0 <= i < |n.slots| && n.slots[i].Used? && LeadsAt(n.slots[i].minKey, n.slots[i].node, k', l);
      OneSlot(n, key, slot, i, k', l);
    }
  }

  // ----- upsert

  /** The tree leads to `leaf` under `key`, and otherwise where it led before. */
  ghost predicate LeadsInstead(n: Node, n': Node, key: real, leaf: nat) {
    forall k, l :: Leads(n', k, l) <==> if k == key then l == leaf else Leads(n, k, l)
  }

  ghost predicate KeepsSlots(s: seq<Slot<Node>>, s': seq<Slot<Node>>) {
    forall k :: HasSlot(s, k) ==> HasSlot(s', k)
  }

  /** There is no room for a leaf: at the node above the leaves that the predecessor slots lead to, no slot has the key
      and the key's home block is full. */
  ghost predicate Refuses(n: Node, key: real)
    decreases n
  {
    && n.Inner? && n.model.blocks >= 4
    && exists slot :: IsPredecessor(n.slots, key, slot) &&
         if n.slots[slot].node.Inner? then Refuses(n.slots[slot].node, key)
         else !HasSlot(n.slots, key) && BlockFull(n.model, n.slots, key)
  }

  /** The predecessor slot decides. */
  lemma RefusesIs(n: Node, key: real, slot: nat)
    requires TreeOk(n) && n.Inner? && IsPredecessor(n.slots, key, slot)
    ensures n.model.blocks >= 4
    ensures Refuses(n, key) <==>
              if n.slots[slot].node.Inner? then Refuses(n.slots[slot].node, key)
              else !HasSlot(n.slots, key) && BlockFull(n.model, n.slots, key)
  {
    TreeHasInv(n);
    hide TreeOk, Inv, BlockFull, HasSlot;
    forall i | IsPredecessor(n.slots, key, i) ensures i == slot {
      assert n.slots[i].minKey == n.slots[slot].minKey;
    }
  }

  /** Follows the predecessor slots down to the node above the leaves and adds or replaces the leaf there, unless
      there is no room. */
  method UpsertLeaf(n: Node, key: real, leaf: nat) returns (n': Node, done: bool)
    requires TreeOk(n) && n.Inner? && Reaches(n.slots, key)
    ensures n'.Inner? && n'.model == n.model && TreeOk(n')
    ensures done ==> LeadsInstead(n, n', key, leaf) && KeepsSlots(n.slots, n'.slots)
    ensures !done ==> n' == n
    ensures !done <==> Refuses(n, key)
    decreases n
  {
    hide Refuses, BlockFull;
    hide Inv, Leads, TreeOk, Redirects, Reaches, HasSlot, KeepsSlots, LeadsInstead;
    TreeHasInv(n);
    var slots := new Slot<Node>[|n.slots|](i requires 0 <= i < |n.slots| => n.slots[i]);
    assert slots[..] == n.slots;
    var r;
    ghost var pred;
    r, pred := UpsertNode(slots, n.model, Used(key, LeafRef(leaf)), (x: Node) => x.Inner?);
    RefusesIs(n, key, pred);
    match r
    case Descend(slot) =>
      var child := n.slots[slot].node;
      ChildAtSlot(n, slot);
      SlotKeyReaches(child.slots, n.slots[slot].minKey, key);
      var child';
      child', done := UpsertLeaf(child, key, leaf);
      if !done {
        return n, false;
      }
      n' := n.(slots := n.slots[slot := Used(n.slots[slot].minKey, child')]);
      DescendOk(n, key, leaf, slot, child');
    case NoRoom => return n, false;
    case _ =>
      done := true;
      n' := n.(slots := slots[..]);
      PlacedOk(n, n', key, leaf, pred);
  }

  /** A search after an upsert returns the predecessor among the old first keys and the new one. */
  lemma FindAfterUpsert(n: Node, n': Node, key: real, leaf: nat, q: real, k: real, l: nat)
    requires LeadsInstead(n, n', key, leaf) && IsLeafFor(n', q, k, l)
    ensures k <= q && if k == key then l == leaf else Leads(n, k, l)
    ensures key <= q ==> key <= k
    ensures forall k', l' :: Leads(n, k', l') && k' <= q ==> k' <= k
  {
    hide Leads;
    if key <= q {
      assert Leads(n', key, leaf);
    }
    forall k', l' | Leads(n, k', l') && k' <= q ensures k' <= k {
      assert k' != key ==> Leads(n', k', l');
    }
  }

  /** Putting a changed child back into its slot. */
  lemma DescendOk(n: Node, key: real, leaf: nat, slot: nat, child': Node)
    requires TreeOk(n) && n.Inner? && IsPredecessor(n.slots, key, slot) && n.slots[slot].node.Inner? && child'.Inner?
    requires TreeOk(child') && LeadsInstead(n.slots[slot].node, child', key, leaf)
    requires KeepsSlots(n.slots[slot].node.slots, child'.slots)
    ensures var n' := n.(slots := n.slots[slot := Used(n.slots[slot].minKey, child')]);
            TreeOk(n') && LeadsInstead(n, n', key, leaf) && KeepsSlots(n.slots, n'.slots)
  {
    hide TreeOk, Inv, Redirects;
    var minKey := n.slots[slot].minKey;
    var n' := n.(slots := n.slots[slot := Used(minKey, child')]);
    TreeHasInv(n);
    ReplaceKeeps(n.model, n.slots, Used(minKey, child'), slot);
    DescendLeads(n, n', key, leaf, slot, child');
    forall i | 0 <= i < |n'.slots| && n'.slots[i].Used?
      ensures TreeOk(n'.slots[i].node) && ChildFits(n'.slots, n'.slots[i].minKey, n'.slots[i].node)
    {
      DescendChild(n, n', key, leaf, slot, child', i);
    }
    FoldTree(n');
  }

  lemma FoldTree(n: Node)
    requires n.Inner? && Inv(n.model, n.slots)
    requires forall i :: 0 <= i < |n.slots| && n.slots[i].Used? ==>
               TreeOk(n.slots[i].node) && ChildFits(n.slots, n.slots[i].minKey, n.slots[i].node)
    ensures TreeOk(n)
  {}

  /** Every slot keeps its key. */
  ghost predicate SameKeys(s: seq<Slot<Node>>, s': seq<Slot<Node>>) {
    && |s| == |s'|
    && forall i :: 0 <= i < |s| ==> (s[i].Used? <==> s'[i].Used?) && (s[i].Used? ==> s[i].minKey == s'[i].minKey)
  }

  lemma SameKeysBetween(s: seq<Slot<Node>>, s': seq<Slot<Node>>, minKey: real, k: real)
    requires SameKeys(s, s')
    ensures Between(s, minKey, k) <==> Between(s', minKey, k)
    ensures HasSlot(s, k) ==> HasSlot(s', k)
  {}

  lemma DescendChild(n: Node, n': Node, key: real, leaf: nat, slot: nat, child': Node, i: nat)
    requires TreeOk(n) && n.Inner? && IsPredecessor(n.slots, key, slot) && n.slots[slot].node.Inner? && child'.Inner?
    requires TreeOk(child') && LeadsInstead(n.slots[slot].node, child', key, leaf)
    requires KeepsSlots(n.slots[slot].node.slots, child'.slots)
    requires n' == n.(slots := n.slots[slot := Used(n.slots[slot].minKey, child')])
    requires i < |n'.slots| && n'.slots[i].Used?
    ensures TreeOk(n'.slots[i].node) && ChildFits(n'.slots, n'.slots[i].minKey, n'.slots[i].node)
  {
    hide TreeOk, Inv, Leads, Between, HasSlot;
    var minKey := n'.slots[i].minKey;
    ChildAtSlot(n, i);
    assert SameKeys(n.slots, n'.slots);
    if n'.slots[i].node.Inner? {
      forall k, l | Leads(n'.slots[i].node, k, l) ensures Between(n'.slots, minKey, k) {
        if i == slot && k == key {
          PredecessorBetween(n, key, slot);
        } else {
          assert Leads(n.slots[i].node, k, l);
        }
        SameKeysBetween(n.slots, n'.slots, minKey, k);
      }
    }
  }

  lemma PredecessorBetween(n: Node, key: real, slot: nat)
    requires n.Inner? && IsPredecessor(n.slots, key, slot)
    ensures Between(n.slots, n.slots[slot].minKey, key)
  {}

  lemma DescendLeads(n: Node, n': Node, key: real, leaf: nat, slot: nat, child': Node)
    requires TreeOk(n) && n.Inner? && IsPredecessor(n.slots, key, slot) && n.slots[slot].node.Inner? && child'.Inner?
    requires LeadsInstead(n.slots[slot].node, child', key, leaf)
    requires n' == n.(slots := n.slots[slot := Used(n.slots[slot].minKey, child')])
    ensures LeadsInstead(n, n', key, leaf) && KeepsSlots(n.slots, n'.slots)
  {
    hide TreeOk, Inv;
    TreeHasInv(n);
    var minKey := n.slots[slot].minKey;
    assert SameKeys(n.slots, n'.slots);
    forall k, l ensures Leads(n', k, l) <==> if k == key then l == leaf else Leads(n, k, l) {
      assert LeadsAt(minKey, child', k, l) <==>
               if k == key then l == leaf else LeadsAt(minKey, n.slots[slot].node, k, l);
      if i :| 0 <= i < |n.slots| && n.slots[i].Used? && LeadsAt(n.slots[i].minKey, n.slots[i].node, k, l) {
        OneSlot(n, key, slot, i, k, l);
        assert LeadsAt(n'.slots[i].minKey, n'.slots[i].node, k, l) || i == slot;
      }
      if i :| 0 <= i < |n'.slots| && n'.slots[i].Used? && LeadsAt(n'.slots[i].minKey, n'.slots[i].node, k, l) {
        if i != slot {
          OneSlot(n, key, slot, i, k, l);
        }
      }
      if k == key && l == leaf {
        assert LeadsAt(n'.slots[slot].minKey, n'.slots[slot].node, k, l);
      }
    }
    forall k | HasSlot(n.slots, k) ensures HasSlot(n'.slots, k) {
      SameKeysBetween(n.slots, n'.slots, k, k);
    }
  }

  // ----- a leaf added or replaced in this node

  lemma StoresAt(s: seq<Slot<Node>>, i: nat)
    requires i < |s| && s[i].Used?
    ensures Stores(s, s[i].minKey, s[i].node)
  {}

  /** Where a slot of the changed node comes from. */
  lemma SlotOrigin(s: seq<Slot<Node>>, s': seq<Slot<Node>>, key: real, leaf: nat, i: nat) returns (j: nat)
    requires Redirects(s, s', key, LeafRef(leaf)) && i < |s'| && s'[i].Used?
    ensures s'[i].minKey == key ==> s'[i].node == LeafRef(leaf)
    ensures s'[i].minKey != key ==> j < |s| && s[j] == s'[i]
  {
    StoresAt(s', i);
    if s'[i].minKey != key {
      assert Stores(s, s'[i].minKey, s'[i].node);
      j :| 0 <= j < |s| && s[j] == Used(s'[i].minKey, s'[i].node);
    } else {
      j := 0;
    }
  }

  /** Where a slot of the old node goes. */
  lemma SlotTarget(s: seq<Slot<Node>>, s': seq<Slot<Node>>, key: real, leaf: nat, j: nat) returns (i: nat)
    requires Redirects(s, s', key, LeafRef(leaf)) && j < |s| && s[j].Used? && s[j].minKey != key
    ensures i < |s'| && s'[i] == s[j]
  {
    StoresAt(s, j);
    assert Stores(s', s[j].minKey, s[j].node);
    i :| 0 <= i < |s'| && s'[i] == Used(s[j].minKey, s[j].node);
  }

  lemma NewSlot(s: seq<Slot<Node>>, s': seq<Slot<Node>>, key: real, leaf: nat) returns (i: nat)
    requires Redirects(s, s', key, LeafRef(leaf))
    ensures i < |s'| && s'[i] == Used(key, LeafRef(leaf))
  {
    assert Stores(s', key, LeafRef(leaf));
    i :| 0 <= i < |s'| && s'[i] == Used(key, LeafRef(leaf));
  }

  /** An inner child leads to no key that is separated from it by the new one. */
  lemma BesideNew(n: Node, key: real, pred: nat, j: nat, k: real, leaf: nat)
    requires TreeOk(n) && n.Inner? && IsPredecessor(n.slots, key, pred) && n.slots[pred].node.LeafRef?
    requires j < |n.slots| && n.slots[j].Used? && LeadsAt(n.slots[j].minKey, n.slots[j].node, k, leaf)
    ensures n.slots[j].minKey < key ==> k < key || (k == key && n.slots[j].node.LeafRef?)
    ensures n.slots[j].minKey > key ==> k > key
    ensures n.slots[j].minKey != key ==> k != key
  {
    hide TreeOk;
    TreeHasInv(n);
    LeadsBetween(n, j, k, leaf);
    var pk := n.slots[pred].minKey;
    if n.slots[j].minKey < key && j != pred {
      assert n.slots[j].minKey <= pk && n.slots[j].minKey != pk;
      assert k < pk;
    }
  }

  lemma PlacedOk(n: Node, n': Node, key: real, leaf: nat, pred: nat)
    requires TreeOk(n) && n.Inner? && n'.Inner? && n'.model == n.model && Inv(n.model, n'.slots)
    requires IsPredecessor(n.slots, key, pred) && n.slots[pred].node.LeafRef?
    requires Redirects(n.slots, n'.slots, key, LeafRef(leaf))
    ensures TreeOk(n') && LeadsInstead(n, n', key, leaf) && KeepsSlots(n.slots, n'.slots)
  {
    hide TreeOk, Inv, Redirects;
    forall i | 0 <= i < |n'.slots| && n'.slots[i].Used?
      ensures TreeOk(n'.slots[i].node) && ChildFits(n'.slots, n'.slots[i].minKey, n'.slots[i].node)
    {
      PlacedChild(n, n', key, leaf, pred, i);
    }
    FoldTree(n');
    PlacedLeads(n, n', key, leaf, pred);
    forall k | HasSlot(n.slots, k) ensures HasSlot(n'.slots, k) {
      var j :| 0 <= j < |n.slots| && n.slots[j].Used? && n.slots[j].minKey == k;
      if k == key {
        var i := NewSlot(n.slots, n'.slots, key, leaf);
      } else {
        var i := SlotTarget(n.slots, n'.slots, key, leaf, j);
      }
    }
  }

  lemma PlacedChild(n: Node, n': Node, key: real, leaf: nat, pred: nat, i: nat)
    requires TreeOk(n) && n.Inner? && n'.Inner? && Redirects(n.slots, n'.slots, key, LeafRef(leaf))
    requires IsPredecessor(n.slots, key, pred) && n.slots[pred].node.LeafRef?
    requires i < |n'.slots| && n'.slots[i].Used?
    ensures TreeOk(n'.slots[i].node) && ChildFits(n'.slots, n'.slots[i].minKey, n'.slots[i].node)
  {
    var child := n'.slots[i].node;
    if child.Inner? {
      hide TreeOk, Redirects, Leads, HasSlot;
      var j := SlotOrigin(n.slots, n'.slots, key, leaf, i);
      ChildAtSlot(n, j);
      forall k, l | Leads(child, k, l) ensures Between(n'.slots, n'.slots[i].minKey, k) {
        assert LeadsAt(n.slots[j].minKey, n.slots[j].node, k, l);
        BesideNew(n, key, pred, j, k, l);
        LeadsBetween(n, j, k, l);
        forall x | 0 <= x < |n'.slots| && n'.slots[x].Used? && n'.slots[i].minKey < n'.slots[x].minKey
          ensures k < n'.slots[x].minKey
        {
          var y := SlotOrigin(n.slots, n'.slots, key, leaf, x);
        }
      }
    }
  }

  lemma PlacedLeads(n: Node, n': Node, key: real, leaf: nat, pred: nat)
    requires TreeOk(n) && n.Inner? && n'.Inner? && Redirects(n.slots, n'.slots, key, LeafRef(leaf))
    requires IsPredecessor(n.slots, key, pred) && n.slots[pred].node.LeafRef?
    ensures LeadsInstead(n, n', key, leaf)
  {
    hide TreeOk, Redirects;
    var added := NewSlot(n.slots, n'.slots, key, leaf);
    forall k, l ensures Leads(n', k, l) <==> if k == key then l == leaf else Leads(n, k, l) {
      if i :| 0 <= i < |n'.slots| && n'.slots[i].Used? && LeadsAt(n'.slots[i].minKey, n'.slots[i].node, k, l) {
        var j := SlotOrigin(n.slots, n'.slots, key, leaf, i);
        if n'.slots[i].minKey != key {
          BesideNew(n, key, pred, j, k, l);
        }
      }
      if k == key && l == leaf {
        assert LeadsAt(n'.slots[added].minKey, n'.slots[added].node, k, l);
      }
      if j :| k != key && 0 <= j < |n.slots| && n.slots[j].Used? && LeadsAt(n.slots[j].minKey, n.slots[j].node, k, l) {
        OldLeads(n, n', key, leaf, pred, j, k, l);
      }
    }
  }

  lemma OldLeads(n: Node, n': Node, key: real, leaf: nat, pred: nat, j: nat, k: real, l: nat)
    requires TreeOk(n) && n.Inner? && n'.Inner? && Redirects(n.slots, n'.slots, key, LeafRef(leaf)) && k != key
    requires IsPredecessor(n.slots, key, pred) && n.slots[pred].node.LeafRef?
    requires j < |n.slots| && n.slots[j].Used? && LeadsAt(n.slots[j].minKey, n.slots[j].node, k, l)
    ensures Leads(n', k, l)
  {
    hide TreeOk, Redirects;
    TreeHasInv(n);
    assert n.slots[j].minKey == key ==> j == pred;
    var i := SlotTarget(n.slots, n'.slots, key, leaf, j);
  }

  // ----- the trees that bulk load builds

  /** The cut that a leaf belongs to. */
  lemma {:induction false} CutAt(cuts: seq<nat>, x: nat, a: nat) returns (j: nat)
    requires a < |cuts| && cuts[0] <= x < cuts[a]
    ensures j < a && cuts[j] <= x < cuts[j + 1]
  {
    if a >= 1 && x >= cuts[a - 1] {
      j := a - 1;
    } else {
      j := CutAt(cuts, x, a - 1);
    }
  }

  /** Leaf x is one of lo .. hi - 1 and k is its first key. */
  ghost predicate FirstOf(lo: nat, hi: nat, firsts: seq<real>, k: real, x: nat) {
    lo <= x < hi <= |firsts| && k == firsts[x]
  }

  /** A tree over the leaves lo .. hi - 1 leads exactly to them, under their first keys. */
  lemma BuiltTreeLeads(n: Node, lo: nat, hi: nat, firsts: seq<real>)
    requires TreeOver(n, lo, hi, firsts) && Increasing(firsts) && n.Inner?
    ensures lo < hi <= |firsts| && TreeOk(n) && HasSlot(n.slots, firsts[lo])
    ensures forall k, x: nat :: Leads(n, k, x) <==> FirstOf(lo, hi, firsts, k, x)
    decreases n, 1
  {
    hide TreeOk, Leads, Inv, Increasing;
    var at, cuts :| ChildrenOver(n, at, cuts, lo, hi, firsts);
    assert cuts[0] < cuts[|at|] && n.slots[at[0]].minKey == firsts[lo];
    forall j | 0 <= j < |at|
      ensures TreeOk(n.slots[at[j]].node) && ChildFits(n.slots, n.slots[at[j]].minKey, n.slots[at[j]].node)
      ensures forall k, x: nat :: LeadsAt(n.slots[at[j]].minKey, n.slots[at[j]].node, k, x) <==>
                                  FirstOf(cuts[j], cuts[j + 1], firsts, k, x)
    {
      BuiltChildLeads(n, at, cuts, lo, hi, firsts, j);
    }
    forall i | 0 <= i < |n.slots| && n.slots[i].Used?
      ensures TreeOk(n.slots[i].node) && ChildFits(n.slots, n.slots[i].minKey, n.slots[i].node)
    {
      var j :| 0 <= j < |at| && at[j] == i;
    }
    FoldTree(n);
    forall k, x: nat ensures Leads(n, k, x) <==> FirstOf(lo, hi, firsts, k, x) {
      BuiltLeadsIff(n, at, cuts, lo, hi, firsts, k, x);
    }
  }

  lemma BuiltChildLeads(n: Node, at: seq<nat>, cuts: seq<nat>, lo: nat, hi: nat, firsts: seq<real>, j: nat)
    requires n.Inner? && ChildrenOver(n, at, cuts, lo, hi, firsts) && Increasing(firsts) && j < |at|
    ensures TreeOk(n.slots[at[j]].node) && ChildFits(n.slots, n.slots[at[j]].minKey, n.slots[at[j]].node)
    ensures forall k, x: nat :: LeadsAt(n.slots[at[j]].minKey, n.slots[at[j]].node, k, x) <==>
                                FirstOf(cuts[j], cuts[j + 1], firsts, k, x)
    decreases n, 0
  {
    var child, minKey := n.slots[at[j]].node, n.slots[at[j]].minKey;
    assert TreeOver(child, cuts[j], cuts[j + 1], firsts);
    if child.Inner? {
      hide TreeOk, Leads, Inv;
      BuiltTreeLeads(child, cuts[j], cuts[j + 1], firsts);
      forall k, x: nat | Leads(child, k, x) ensures Between(n.slots, minKey, k) {
        assert FirstOf(cuts[j], cuts[j + 1], firsts, k, x);
        BuiltBetween(n, at, cuts, lo, hi, firsts, j, x);
      }
    }
  }

  lemma BuiltBetween(n: Node, at: seq<nat>, cuts: seq<nat>, lo: nat, hi: nat, firsts: seq<real>, j: nat, x: nat)
    requires n.Inner? && Spread(n.slots, at, cuts, lo, hi, firsts) && Increasing(firsts) && j < |at|
    requires cuts[j] <= x < cuts[j + 1] <= |firsts|
    ensures Between(n.slots, n.slots[at[j]].minKey, firsts[x])
  {
    forall i | 0 <= i < |n.slots| && n.slots[i].Used? && n.slots[at[j]].minKey < n.slots[i].minKey
      ensures firsts[x] < n.slots[i].minKey
    {
      var a :| 0 <= a < |at| && at[a] == i;
      assert a > j ==> j + 1 == a || cuts[j + 1] < cuts[a];
    }
  }

  lemma BuiltLeadsIff(n: Node, at: seq<nat>, cuts: seq<nat>, lo: nat, hi: nat, firsts: seq<real>, k: real, x: nat)
    requires n.Inner? && ChildrenOver(n, at, cuts, lo, hi, firsts)
    requires forall j :: 0 <= j < |at| ==>
               forall k, x: nat :: LeadsAt(n.slots[at[j]].minKey, n.slots[at[j]].node, k, x) <==>
                                   FirstOf(cuts[j], cuts[j + 1], firsts, k, x)
    ensures Leads(n, k, x) <==> FirstOf(lo, hi, firsts, k, x)
  {
    if Leads(n, k, x) {
      var i :| 0 <= i < |n.slots| && n.slots[i].Used? && LeadsAt(n.slots[i].minKey, n.slots[i].node, k, x);
      var j :| 0 <= j < |at| && at[j] == i;
      assert FirstOf(cuts[j], cuts[j + 1], firsts, k, x);
      assert lo <= cuts[j] && cuts[j + 1] <= hi;
    }
    if FirstOf(lo, hi, firsts, k, x) {
      var j := CutAt(cuts, x, |at|);
      assert FirstOf(cuts[j], cuts[j + 1], firsts, k, x);
      assert LeadsAt(n.slots[at[j]].minKey, n.slots[at[j]].node, k, x);
    }
  }
}
