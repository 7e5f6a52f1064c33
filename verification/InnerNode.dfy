/** Slots of an inner node: sorted sparse placement, predecessor search and insertion by shifting. */
module InnerNode {
  import Geometry
  import opened Placement

  datatype Slot<T> = Free | Used(minKey: real, node: T)

  // ----- the invariant

  ghost predicate Ordered<T>(s: seq<Slot<T>>) {
    forall i, j :: 0 <= i < j < |s| && s[i].Used? && s[j].Used? ==> s[i].minKey < s[j].minKey
  }

  ghost predicate FullFrom<T>(s: seq<Slot<T>>, lo: int, hi: int) {
    forall v :: 0 <= lo <= v < hi && v < |s| ==> s[v].Used?
  }

  /** No free slot lies between a node's home block and the node. */
  ghost predicate Packed<T>(m: NodeModel, s: seq<Slot<T>>)
    requires m.blocks >= 4
  {
    forall u :: 0 <= u < |s| && s[u].Used? ==> Home(m, s[u].minKey) <= u && FullFrom(s, Home(m, s[u].minKey), u)
  }

  ghost predicate Inv<T>(m: NodeModel, s: seq<Slot<T>>) {
    && m.blocks >= 4 && m.line.a >= 0.0 && |s| == m.blocks * SLOTS_PER_BLOCK
    && Ordered(s) && Packed(m, s)
  }

  ghost predicate Reaches<T>(s: seq<Slot<T>>, key: real) {
    exists i :: 0 <= i < |s| && s[i].Used? && s[i].minKey <= key
  }

  /** i is the occupied slot with the greatest key at or below `key`. */
  ghost predicate IsPredecessor<T>(s: seq<Slot<T>>, key: real, i: int) {
    && 0 <= i < |s| && s[i].Used? && s[i].minKey <= key
    && forall j :: 0 <= j < |s| && s[j].Used? && s[j].minKey <= key ==> s[j].minKey <= s[i].minKey
  }

  /** Behind a free slot, or a slot with a greater key, at or after the home of `key` only greater keys follow. */
  lemma NothingBehind<T>(m: NodeModel, s: seq<Slot<T>>, key: real, t: int)
    requires Inv(m, s) && Home(m, key) <= t < |s|
    requires s[t].Free? || key < s[t].minKey
    ensures forall j :: t <= j < |s| && s[j].Used? ==> key < s[j].minKey
  {
    forall j | t <= j < |s| && s[j].Used? ensures key < s[j].minKey {
      assert FullFrom(s, Home(m, s[j].minKey), j);
      if s[j].minKey <= key {
        HomeMonotone(m, s[j].minKey, key);
      }
    }
  }

  lemma LastIsPredecessor<T>(s: seq<Slot<T>>, key: real, i: int)
    requires Ordered(s) && 0 <= i < |s| && s[i].Used? && s[i].minKey <= key
    requires forall j :: i < j < |s| && s[j].Used? ==> key < s[j].minKey
    ensures IsPredecessor(s, key, i)
  {}

  /** The search: start at the predicted block, walk left over free slots or right over smaller keys.
      It stays in bounds and finds the exact predecessor. */
  method FindSlot<T>(m: NodeModel, s: seq<Slot<T>>, key: real) returns (slot: nat)
    requires Inv(m, s) && Reaches(s, key)
    ensures IsPredecessor(s, key, slot)
  {
    hide Home, Packed, Ordered, IsPredecessor;
    HomeInside(m, key);
    slot := Home(m, key);
    ghost var i :| 0 <= i < |s| && s[i].Used? && s[i].minKey <= key;
    if s[slot].Free? || key < s[slot].minKey {
      NothingBehind(m, s, key, slot);
      slot := slot - 1;
      while s[slot].Free?
        invariant i <= slot < |s|
        invariant forall j :: slot < j < |s| && s[j].Used? ==> key < s[j].minKey
        invariant slot < Home(m, key)
        decreases slot
      {
        slot := slot - 1;
      }
      assert s[slot].minKey <= key by { SlotBelow(m, s, key, slot); }
    } else {
      var home := slot;
      while slot < |s| && s[slot].Used? && key >= s[slot].minKey
        invariant home <= slot <= |s|
        invariant slot > home ==> s[slot - 1].Used? && s[slot - 1].minKey <= key
      {
        slot := slot + 1;
      }
      if slot < |s| {
        NothingBehind(m, s, key, slot);
      }
      slot := slot - 1;
    }
    LastIsPredecessor(s, key, slot);
  }

  /** A slot left of the home of a key holds no greater key. */
  lemma SlotBelow<T>(m: NodeModel, s: seq<Slot<T>>, key: real, slot: int)
    requires Inv(m, s) && 0 <= slot < |s| && slot < Home(m, key) && s[slot].Used?
    ensures s[slot].minKey <= key
  {
    if key < s[slot].minKey {
      HomeMonotone(m, key, s[slot].minKey);
    }
  }

  // ----- model-based placement of sorted nodes

  /** Writes a node to the first free slot at or after its home block; fails when there is none. */
  method DataPlacement<T>(slots: array<Slot<T>>, m: NodeModel, node: Slot<T>) returns (placed: bool, slot: nat)
    requires m.blocks >= 4 && slots.Length == m.blocks * SLOTS_PER_BLOCK && node.Used?
    modifies slots
    ensures Home(m, node.minKey) <= slot && FullFrom(old(slots[..]), Home(m, node.minKey), slot)
    ensures placed ==> slot < slots.Length && old(slots[slot]).Free? && slots[..] == old(slots[..])[slot := node]
    ensures !placed ==> slot == slots.Length && slots[..] == old(slots[..])
  {
    hide Home;
    HomeInside(m, node.minKey);
    slot := Home(m, node.minKey);
    var home := slot;
    var i := 0;
    while i < SLOTS_PER_BLOCK
      invariant 0 <= i <= SLOTS_PER_BLOCK
      invariant forall v :: home <= v < home + i ==> slots[v].Used?
      invariant slots[..] == old(slots[..])
    {
      if slots[home + i].Free? {
        slots[home + i] := node;
        return true, home + i;
      }
      i := i + 1;
    }
    slot := home + SLOTS_PER_BLOCK;
    while slot < slots.Length
      invariant home <= slot <= slots.Length
      invariant forall v :: home <= v < slot ==> slots[v].Used?
      invariant slots[..] == old(slots[..])
    {
      if slots[slot].Free? {
        slots[slot] := node;
        return true, slot;
      }
      slot := slot + 1;
    }
    return false, slot;
  }

  ghost predicate AllFreeFrom<T>(s: seq<Slot<T>>, t: int) {
    forall v :: t <= v < |s| && 0 <= v ==> s[v].Free?
  }

  /** Placing keys in increasing order: each goes to its home, or right behind the one before. */
  lemma PlacedNext<T>(m: NodeModel, s: seq<Slot<T>>, last: int, node: Slot<T>, slot: nat)
    requires Inv(m, s) && node.Used? && -1 <= last < |s| && AllFreeFrom(s, last + 1)
    requires last >= 0 ==> s[last].Used? && s[last].minKey < node.minKey
    requires Home(m, node.minKey) <= slot < |s| && FullFrom(s, Home(m, node.minKey), slot) && s[slot].Free?
    ensures slot == if Home(m, node.minKey) > last then Home(m, node.minKey) else last + 1
    ensures Inv(m, s[slot := node]) && AllFreeFrom(s[slot := node], slot + 1)
  {
    var home := Home(m, node.minKey);
    if last >= 0 {
      HomeMonotone(m, s[last].minKey, node.minKey);
      assert FullFrom(s, Home(m, s[last].minKey), last);
    }
    assert slot > last;
    assert s[if home > last then home else last + 1].Free?;
    var s' := s[slot := node];
    PackedUpdate(m, s, slot, node);
    forall i, j | 0 <= i < j < |s'| && s'[i].Used? && s'[j].Used? ensures s'[i].minKey < s'[j].minKey {
      if j == slot && i != last {
        assert s[i].Used? && i < last;
      }
    }
  }

  lemma PackedUpdate<T>(m: NodeModel, s: seq<Slot<T>>, slot: nat, node: Slot<T>)
    requires m.blocks >= 4 && Packed(m, s) && node.Used? && slot < |s|
    requires Home(m, node.minKey) <= slot && FullFrom(s, Home(m, node.minKey), slot) && s[slot].Free?
    ensures Packed(m, s[slot := node])
  {
    hide Home;
    var s' := s[slot := node];
    forall u | 0 <= u < |s'| && s'[u].Used?
      ensures Home(m, s'[u].minKey) <= u && FullFrom(s', Home(m, s'[u].minKey), u)
    {
      if u != slot {
        assert s[u].Used? && FullFrom(s, Home(m, s[u].minKey), u);
      }
    }
  }

  /** The node constructor's placement loop over one fitted segment. It never runs off the slot array,
      keeps the search invariant, and every node of the segment ends up in the array, in order. */
  method Build<T(0)>(keys: seq<real>, nodes: seq<T>, start: nat, ghost fit: Geometry.Line, m: NodeModel)
    returns (slots: array<Slot<T>>, ghost at: seq<nat>)
    requires 1 <= |keys| == |nodes| && Increasing(keys)
    requires |keys| >= 2 ==> fit.a > 0.0 && Accurate(fit, keys, start, EPSILON_INNER_NODE)
    requires IsInnerModel(m, fit, start, keys)
    ensures fresh(slots) && Inv(m, slots[..])
    ensures |at| == |keys| && HoldsAll(slots[..], keys, nodes, at)
    ensures forall v :: 0 <= v < slots.Length && slots[v].Used? ==> v in at
  {
    hide Home, Inv, RoomAhead;
    ModelIsMonotone(m, fit, start, keys);
    slots := new Slot<T>[m.blocks * SLOTS_PER_BLOCK](_ => Free);
    at := [];
    EmptyInv(m, slots[..]);
    RoomStart(m, keys);
    ghost var last: int := -1;
    for i := 0 to |keys|
      invariant fresh(slots) && slots.Length == m.blocks * SLOTS_PER_BLOCK
      invariant Inv(m, slots[..]) && AllFreeFrom(slots[..], last + 1) && -1 <= last < slots.Length
      invariant |at| == i && HoldsAll(slots[..], keys[..i], nodes[..i], at)
      invariant forall v :: 0 <= v < slots.Length && slots[v].Used? ==> v in at
      invariant if i == 0 then last == -1 else last == at[i - 1]
      invariant RoomAhead(m, keys, i, last)
    {
      var node := Used(keys[i], nodes[i]);
      ghost var before := slots[..];
      RoomForNext(fit, keys, start, m, i, last);
      NotFull(m, before, last, node);
      var placed, slot := DataPlacement(slots, m, node);
      PlacedNext(m, before, last, node, slot);
      RoomStep(m, keys, i, last, slot);
      HoldsSnoc(before, keys, nodes, at, i, slot, slots[..]);
      at, last := at + [slot], slot;
    }
    assert keys[..|keys|] == keys && nodes[..|nodes|] == nodes;
  }

  ghost predicate HoldsAll<T>(s: seq<Slot<T>>, keys: seq<real>, nodes: seq<T>, at: seq<nat>) {
    && |keys| == |nodes| == |at|
    && forall i :: 0 <= i < |at| ==> at[i] < |s| && s[at[i]] == Used(keys[i], nodes[i])
  }

  /** The slot before the next one is a whole number of keys behind some earlier key's home. */
  ghost predicate RoomAhead(m: NodeModel, keys: seq<real>, i: nat, last: int)
    requires m.blocks >= 4
  {
    i == 0 || exists j: nat :: j < i <= |keys| && last == Home(m, keys[j]) + (i - 1 - j)
  }

  lemma RoomForNext(fit: Geometry.Line, keys: seq<real>, start: nat, m: NodeModel, i: nat, last: int)
    requires Increasing(keys) && i < |keys|
    requires |keys| >= 2 ==> fit.a > 0.0 && Accurate(fit, keys, start, EPSILON_INNER_NODE)
    requires IsInnerModel(m, fit, start, keys) && m.blocks >= 4
    requires RoomAhead(m, keys, i, last) && (i == 0 ==> last == -1)
    ensures last + 1 < m.blocks * SLOTS_PER_BLOCK && Home(m, keys[i]) < m.blocks * SLOTS_PER_BLOCK
  {
    hide Home;
    HomeInside(m, keys[i]);
    if i > 0 {
      var j: nat :| j < i <= |keys| && last == Home(m, keys[j]) + (i - 1 - j);
      RoomForAll(fit, keys, start, j, i - j);
    }
  }

  lemma RoomStep(m: NodeModel, keys: seq<real>, i: nat, last: int, slot: nat)
    requires m.blocks >= 4 && i < |keys| && RoomAhead(m, keys, i, last) && (i == 0 ==> last == -1)
    requires slot == if Home(m, keys[i]) > last then Home(m, keys[i]) else last + 1
    ensures RoomAhead(m, keys, i + 1, slot)
  {
    hide Home;
    if Home(m, keys[i]) > last {
      assert slot == Home(m, keys[i]) + (i + 1 - 1 - i);
    } else {
      var j: nat :| j < i <= |keys| && last == Home(m, keys[j]) + (i - 1 - j);
      assert slot == Home(m, keys[j]) + (i + 1 - 1 - j);
    }
  }

  lemma NotFull<T>(m: NodeModel, s: seq<Slot<T>>, last: int, node: Slot<T>)
    requires m.blocks >= 4 && node.Used? && -1 <= last && last + 1 < |s| && AllFreeFrom(s, last + 1)
    requires Home(m, node.minKey) < |s|
    ensures !FullFrom(s, Home(m, node.minKey), |s|)
  {
    hide Home;
    assert s[|s| - 1].Free?;
  }

  lemma RoomStart(m: NodeModel, keys: seq<real>)
    requires m.blocks >= 4
    ensures RoomAhead(m, keys, 0, -1)
  {}

  lemma EmptyInv<T>(m: NodeModel, s: seq<Slot<T>>)
    requires m.blocks >= 4 && m.line.a >= 0.0 && |s| == m.blocks * SLOTS_PER_BLOCK && AllFreeFrom(s, 0)
    ensures Inv(m, s)
  {}

  lemma HoldsSnoc<T>(s: seq<Slot<T>>, keys: seq<real>, nodes: seq<T>, at: seq<nat>, i: nat, slot: nat, s': seq<Slot<T>>)
    requires i < |keys| == |nodes| && |at| == i && HoldsAll(s, keys[..i], nodes[..i], at)
    requires slot < |s| && s[slot].Free? && s' == s[slot := Used(keys[i], nodes[i])]
    ensures HoldsAll(s', keys[..i + 1], nodes[..i + 1], at + [slot])
  {
    forall k | 0 <= k < i ensures at[k] != slot {
      assert s[at[k]].Used?;
    }
  }

  lemma ModelIsMonotone(m: NodeModel, fit: Geometry.Line, start: nat, keys: seq<real>)
    requires 1 <= |keys| && Increasing(keys) && (|keys| >= 2 ==> fit.a > 0.0)
    requires IsInnerModel(m, fit, start, keys)
    ensures m.blocks >= 4 && m.line.a >= 0.0
  {
    if |keys| >= 2 {
      var spread := Geometry.Line(fit.a / 0.2, (fit.b - start as real) / 0.2);
      CorrectSpans(spread, (InnerBlocks(|keys|) - 3) * SLOTS_PER_BLOCK, keys[0], keys[|keys| - 1]);
    }
  }

  // ----- inserting a node

  ghost predicate Stores<T>(s: seq<Slot<T>>, key: real, node: T) {
    exists i :: 0 <= i < |s| && s[i] == Used(key, node)
  }

  /** The same nodes, except that `key` now leads to `node`. */
  ghost predicate Redirects<T(!new)>(s: seq<Slot<T>>, s': seq<Slot<T>>, key: real, node: T) {
    forall k, n :: Stores(s', k, n) <==> if k == key then n == node else Stores(s, k, n)
  }

  /** The slots after shifting [target, end) one to the right into the free slot `end`. */
  ghost function Shifted<T>(s: seq<Slot<T>>, target: nat, end: nat, node: Slot<T>): seq<Slot<T>>
    requires target <= end < |s|
  {
    MovedFrom(s, target, end)[target := node]
  }

  /** The slots while the loop has moved (from, end] one to the right. */
  ghost function MovedFrom<T>(s: seq<Slot<T>>, from: nat, end: nat): seq<Slot<T>>
    requires end < |s|
  {
    seq(|s|, v requires 0 <= v < |s| => if from < v <= end then s[v - 1] else s[v])
  }

  /** `end` is the first free slot of the block that starts at the home of the new key, `target` the place
      between the smaller and the greater keys of that block. */
  ghost predicate Insertable<T>(m: NodeModel, s: seq<Slot<T>>, key: real, target: nat, end: nat) {
    && Inv(m, s) && Home(m, key) <= target <= end < |s| && s[end].Free?
    && FullFrom(s, Home(m, key), end)
    && (forall j :: 0 <= j < target && s[j].Used? ==> s[j].minKey < key)
    && (forall j :: target <= j < |s| && s[j].Used? ==> key < s[j].minKey)
  }

  lemma ShiftKeepsInv<T>(m: NodeModel, s: seq<Slot<T>>, node: Slot<T>, target: nat, end: nat)
    requires node.Used? && Insertable(m, s, node.minKey, target, end)
    ensures Inv(m, Shifted(s, target, end, node))
  {
    hide Home;
    var s' := Shifted(s, target, end, node);
    forall u | 0 <= u < |s'| && s'[u].Used?
      ensures Home(m, s'[u].minKey) <= u && FullFrom(s', Home(m, s'[u].minKey), u)
    {
      if target < u <= end {
        assert FullFrom(s, Home(m, s[u - 1].minKey), u - 1);
      } else if u != target {
        assert FullFrom(s, Home(m, s[u].minKey), u);
      }
      var h := Home(m, s'[u].minKey);
      forall v | h <= v < u && 0 <= v ensures s'[v].Used? {
        assert v != target && !(target < v <= end) ==> s[v].Used?;
      }
    }
  }

  lemma ShiftRedirects<T(!new)>(m: NodeModel, s: seq<Slot<T>>, node: Slot<T>, target: nat, end: nat)
    requires node.Used? && Insertable(m, s, node.minKey, target, end)
    ensures Redirects(s, Shifted(s, target, end, node), node.minKey, node.node)
  {
    hide Home;
    var s' := Shifted(s, target, end, node);
    forall k, n ensures Stores(s', k, n) <==> if k == node.minKey then n == node.node else Stores(s, k, n) {
      if k != node.minKey && Stores(s, k, n) {
        var i :| 0 <= i < |s| && s[i] == Used(k, n);
        assert s'[if target <= i < end then i + 1 else i] == Used(k, n);
      }
      if k == node.minKey && n == node.node {
        assert s'[target] == Used(k, n);
      }
    }
  }

  lemma ReplaceKeeps<T(!new)>(m: NodeModel, s: seq<Slot<T>>, node: Slot<T>, i: nat)
    requires Inv(m, s) && node.Used? && i < |s| && s[i].Used? && s[i].minKey == node.minKey
    ensures Inv(m, s[i := node]) && Redirects(s, s[i := node], node.minKey, node.node)
  {
    hide Home;
    var s' := s[i := node];
    forall u | 0 <= u < |s'| && s'[u].Used?
      ensures Home(m, s'[u].minKey) <= u && FullFrom(s', Home(m, s'[u].minKey), u)
    {
      assert FullFrom(s, Home(m, s[u].minKey), u);
    }
    forall k, n ensures Stores(s', k, n) <==> if k == node.minKey then n == node.node else Stores(s, k, n) {
      if k != node.minKey && Stores(s, k, n) {
        var j :| 0 <= j < |s| && s[j] == Used(k, n);
        assert s'[j] == Used(k, n);
      }
      if k == node.minKey && n == node.node {
        assert s'[i] == Used(k, n);
      }
    }
  }

  /** The used slots of a block are its first ones. */
  lemma BlockPrefix<T>(m: NodeModel, s: seq<Slot<T>>, p: nat, u: nat)
    requires Inv(m, s) && p % SLOTS_PER_BLOCK == 0 && p <= u < p + SLOTS_PER_BLOCK && u < |s| && s[u].Used?
    ensures FullFrom(s, p, u)
  {
    assert FullFrom(s, Home(m, s[u].minKey), u);
    HomeInside(m, s[u].minKey);
  }

  datatype Upserted = Replaced | Inserted | NoRoom | Descend(slot: nat)

  ghost predicate HasSlot<T>(s: seq<Slot<T>>, key: real) {
    exists i :: 0 <= i < |s| && s[i].Used? && s[i].minKey == key
  }

  /** Every slot of the key's home block is used. */
  ghost predicate BlockFull<T>(m: NodeModel, s: seq<Slot<T>>, key: real)
    requires m.blocks >= 4
  {
    FullFrom(s, Home(m, key), Home(m, key) + SLOTS_PER_BLOCK)
  }

  lemma PredecessorHas<T>(s: seq<Slot<T>>, key: real, i: int)
    requires IsPredecessor(s, key, i)
    ensures HasSlot(s, key) <==> s[i].minKey == key
  {}

  /** Adds or replaces a child at this level: replaced under an equal key, otherwise inserted by shifting its
      predicted block, unless that block is full. Searching keeps working afterwards. */
  method UpsertNode<T(!new)>(slots: array<Slot<T>>, m: NodeModel, node: Slot<T>, isInner: T -> bool)
    returns (r: Upserted, ghost pred: nat)
    requires Inv(m, slots[..]) && node.Used? && Reaches(slots[..], node.minKey)
    modifies slots
    ensures Inv(m, slots[..])
    ensures r.Replaced? || r.Inserted? ==> Redirects(old(slots[..]), slots[..], node.minKey, node.node)
    ensures r.NoRoom? || r.Descend? ==> slots[..] == old(slots[..])
    ensures IsPredecessor(old(slots[..]), node.minKey, pred) && (r.Descend? ==> r.slot == pred)
    ensures r.Descend? <==> isInner(old(slots[..])[pred].node)
    ensures r.Replaced? <==> !r.Descend? && HasSlot(old(slots[..]), node.minKey)
    ensures r.NoRoom? <==> !r.Descend? && !r.Replaced? && BlockFull(m, old(slots[..]), node.minKey)
  {
    hide Home, Packed, Ordered, Redirects, HasSlot;
    ghost var s := slots[..];
    var slot := FindSlot(m, slots[..], node.minKey);
    pred := slot;
    PredecessorHas(s, node.minKey, slot);
    var p := Home(m, node.minKey);
    HomeInside(m, node.minKey);
    if isInner(slots[slot].node) {
      return Descend(slot), slot;
    }
    if slots[slot].minKey == node.minKey {
      ReplaceKeeps(m, s, node, slot);
      slots[slot] := node;
      return Replaced, slot;
    }
    var last := p + SLOTS_PER_BLOCK - 1;
    if slots[last].Used? {
      BlockPrefix(m, s, p, last);
      return NoRoom, slot;
    }
    var target := p;
    PredecessorInBlock(m, s, node.minKey, slot);
    if slot >= p {
      target := p + 1;
      while slots[target].Used? && slots[target].minKey <= node.minKey
        invariant p < target <= last
        invariant slots[target - 1].Used? && slots[target - 1].minKey <= node.minKey
        decreases last - target
      {
        target := target + 1;
      }
    }
    var i := last - 1;
    while slots[i].Free?
      invariant slot <= i < last
      invariant forall v :: i < v <= last ==> slots[v].Free?
      decreases i
    {
      i := i - 1;
    }
    i := i + 1;
    ghost var end := if i < p then p else i;
    TargetIsRight(m, s, node.minKey, slot, target, end);
    ShiftKeepsInv(m, s, node, target, end);
    ShiftRedirects(m, s, node, target, end);
    ShiftIn(slots, node, target, i, end);
    return Inserted, slot;
  }

  /** Moves the slots from `target` one to the right, up to the free slot, and puts the node there. */
  method ShiftIn<T>(slots: array<Slot<T>>, node: Slot<T>, target: nat, free: nat, ghost end: nat)
    requires target <= end < slots.Length && free <= end && (end > target ==> free == end)
    modifies slots
    ensures slots[..] == Shifted(old(slots[..]), target, end, node)
  {
    ghost var s := slots[..];
    var i := free;
    assert MovedFrom(s, end, end) == s;
    while i > target
      invariant i <= end && (end > target ==> target <= i)
      invariant slots[..] == MovedFrom(s, if end > target then i else target, end)
      decreases i
    {
      MoveStep(s, i, end);
      slots[i] := slots[i - 1];
      i := i - 1;
    }
    slots[target] := node;
  }

  lemma PredecessorInBlock<T>(m: NodeModel, s: seq<Slot<T>>, key: real, slot: nat)
    requires Inv(m, s) && IsPredecessor(s, key, slot)
    requires Home(m, key) + SLOTS_PER_BLOCK <= |s| && s[Home(m, key) + SLOTS_PER_BLOCK - 1].Free?
    ensures slot < Home(m, key) + SLOTS_PER_BLOCK - 1
    ensures slot >= Home(m, key) ==> s[Home(m, key)].Used? && s[Home(m, key)].minKey <= key
  {
    hide Home, Packed;
    var p := Home(m, key);
    HomeInside(m, key);
    NothingBehind(m, s, key, p + SLOTS_PER_BLOCK - 1);
    if slot >= p {
      BlockPrefix(m, s, p, slot);
    }
  }

  lemma TargetIsRight<T>(m: NodeModel, s: seq<Slot<T>>, key: real, slot: nat, target: nat, end: nat)
    requires Inv(m, s) && IsPredecessor(s, key, slot) && s[slot].minKey != key
    requires var p := Home(m, key);
             && p <= target < p + SLOTS_PER_BLOCK <= |s| && p <= end < p + SLOTS_PER_BLOCK
             && (forall v :: end <= v < p + SLOTS_PER_BLOCK ==> s[v].Free?)
             && (end > p ==> s[end - 1].Used?)
             && (slot < p ==> target == p)
             && (slot >= p ==> p < target && s[target - 1].Used? && s[target - 1].minKey <= key)
             && (slot >= p && s[target].Used? ==> key < s[target].minKey)
    ensures Insertable(m, s, key, target, end)
  {
    hide Home, Packed;
    var p := Home(m, key);
    HomeInside(m, key);
    if end > p {
      BlockPrefix(m, s, p, end - 1);
    }
    if slot < p {
      forall j | 0 <= j < p && s[j].Used? ensures s[j].minKey < key {
        SlotBelow(m, s, key, j);
      }
    } else {
      NothingBehind(m, s, key, target);
    }
  }

  lemma MoveStep<T>(s: seq<Slot<T>>, i: nat, end: nat)
    requires 0 < i <= end < |s|
    ensures MovedFrom(s, i, end)[i := MovedFrom(s, i, end)[i - 1]] == MovedFrom(s, i - 1, end)
  {}
}
