/** What every interleaving of the cuckoo hash map keeps. */
module CuckooSafety {
  import opened Wrappers
  import opened CuckooIndex
  import opened CuckooMap
  import CuckooStripe
  import CD = CuckooDoubling

  // ----- the table alone

  /** Looking in the two buckets of a key is looking in the whole table. */
  lemma PairIsEnough(c: Config, s: State, key: Key)
    requires Placed(c, s.table, s.mask)
    ensures SeenInPair(c, s, key, s.mask) <==> InTable(s.table, key)
  {
    hide InPair;
    if InTable(s.table, key) {
      var pos :| pos in s.table && s.table[pos].key == key;
      assert KeyAt(c, s, key, s.mask, pos);
    }
  }

  lemma AddKeepsTable(c: Config, table: map<Pos, Entry>, mask: bv64, pos: Pos, e: Entry)
    requires Placed(c, table, mask) && Unique(table)
    requires pos !in table && pos.slot < c.slots && InPair(mask, c.hash(e.key), pos.bucket) && !InTable(table, e.key)
    ensures Placed(c, table[pos := e], mask) && Unique(table[pos := e]) && |table[pos := e]| == |table| + 1
    ensures forall k :: InTable(table[pos := e], k) <==> InTable(table, k) || k == e.key
  {
    var u := table[pos := e];
    assert u.Keys == table.Keys + {pos};
    hide InPair, Placed, Unique;
    AddIsPlaced(c, table, mask, pos, e);
    forall k ensures InTable(u, k) <==> InTable(table, k) || k == e.key {
      if InTable(table, k) {
        var p :| p in table && table[p].key == k;
        assert p in u && u[p].key == k;
      }
      if k == e.key {
        assert pos in u && u[pos].key == k;
      }
    }
  }

  lemma AddIsPlaced(c: Config, table: map<Pos, Entry>, mask: bv64, pos: Pos, e: Entry)
    requires Placed(c, table, mask) && Unique(table)
    requires pos !in table && pos.slot < c.slots && InPair(mask, c.hash(e.key), pos.bucket) && !InTable(table, e.key)
    ensures Placed(c, table[pos := e], mask) && Unique(table[pos := e])
  {
    hide InPair;
  }

  lemma EraseKeepsTable(c: Config, table: map<Pos, Entry>, mask: bv64, pos: Pos)
    requires Placed(c, table, mask) && Unique(table) && pos in table
    ensures Placed(c, table - {pos}, mask) && Unique(table - {pos}) && |table - {pos}| == |table| - 1
    ensures forall k :: InTable(table - {pos}, k) <==> InTable(table, k) && k != table[pos].key
  {
    hide InPair;
    var u := table - {pos};
    assert u.Keys == table.Keys - {pos};
    forall k ensures InTable(u, k) <==> InTable(table, k) && k != table[pos].key {
      if InTable(table, k) && k != table[pos].key {
        var p :| p in table && table[p].key == k;
        assert p in u && u[p].key == k;
      }
    }
  }

  /** A hop keeps the abstract map: same keys, same values. */
  lemma HopKeepsTable(c: Config, table: map<Pos, Entry>, mask: bv64, from: Pos, to: Pos)
    requires Placed(c, table, mask) && Unique(table) && from in table && to !in table && to.slot < c.slots
    requires to.bucket == AltIndex(mask, PartialKey(c.hash(table[from].key)), from.bucket)
    ensures var u := (table - {from})[to := table[from]];
            && Placed(c, u, mask) && Unique(u) && SameEntries(table, u)
            && forall k :: InTable(u, k) <==> InTable(table, k)
  {
    var u := (table - {from})[to := table[from]];
    HopPlaced(c, table, mask, from, to);
    hide Placed, Unique, AltIndex, PartialKey;
    assert u.Keys == table.Keys - {from} + {to};
    HopValues(table, from, to);
    SameKeys(table, u);
  }

  lemma HopPlaced(c: Config, table: map<Pos, Entry>, mask: bv64, from: Pos, to: Pos)
    requires Placed(c, table, mask) && Unique(table) && from in table && to !in table && to.slot < c.slots
    requires to.bucket == AltIndex(mask, PartialKey(c.hash(table[from].key)), from.bucket)
    ensures var u := (table - {from})[to := table[from]]; Placed(c, u, mask) && Unique(u)
  {
    hide InPair, AltIndex, PartialKey;
    AltStaysInPair(mask, c.hash(table[from].key), from.bucket);
  }

  lemma HopValues(table: map<Pos, Entry>, from: Pos, to: Pos)
    requires from in table && to !in table
    ensures (table - {from})[to := table[from]].Values == table.Values
  {
    var u := (table - {from})[to := table[from]];
    forall e | e in table.Values ensures e in u.Values {
      var p :| p in table && table[p] == e;
      var q := if p == from then to else p;
      assert q in u && u[q] == e;
    }
  }

  lemma SameKeys(a: map<Pos, Entry>, b: map<Pos, Entry>)
    requires SameEntries(a, b)
    ensures forall k :: InTable(a, k) <==> InTable(b, k)
  {
    forall k ensures InTable(a, k) <==> InTable(b, k) {
      KeysFollow(a, b, k);
      KeysFollow(b, a, k);
    }
  }

  lemma KeysFollow(a: map<Pos, Entry>, b: map<Pos, Entry>, k: Key)
    requires SameEntries(a, b)
    ensures InTable(a, k) ==> InTable(b, k)
  {
    if InTable(a, k) {
      var p :| p in a && a[p].key == k;
      assert a[p] in b.Values;
      var q :| q in b && b[q] == a[p];
    }
  }

  // ----- locks and threads

  ghost predicate Holds(s: State, t: Tid, l: Lock) {
    l in s.locks && s.locks[l] == t
  }

  lemma GotoLocks(c: Config, s: State, t: Tid, p: Phase)
    requires HoldsLocks(c, s) && t in s.threads && Needs(c, p) <= Needs(c, s.threads[t])
    ensures HoldsLocks(c, Goto(c, s, t, p))
  {
    hide Needs;
    var s' := Goto(c, s, t, p);
    forall u, l | u in s'.threads && l in Needs(c, s'.threads[u]) ensures l in s'.locks && s'.locks[l] == u {
      assert l in s.locks && s.locks[l] == u;
    }
  }

  lemma TakeLocks(c: Config, s: State, s': State, t: Tid, l: Lock)
    requires HoldsLocks(c, s) && t in s.threads && s.threads[t].Locking? && l in s.threads[t].todo && l !in s.locks
    requires s.threads[t].todo <= Needs(c, s.threads[t].next)
    requires var p := s.threads[t];
             s' == s.(locks := s.locks[l := t],
                      threads := s.threads[t := if p.todo == {l} then p.next else Locking(p.todo - {l}, p.next)])
    ensures HoldsLocks(c, s') && Needs(c, s'.threads[t]) == Needs(c, s.threads[t]) + {l}
  {
    hide Needs;
    NeedsOneMore(c, s.threads[t], l);
    forall u, k | u in s'.threads && k in Needs(c, s'.threads[u]) ensures k in s'.locks && s'.locks[k] == u {
      if u != t {
        assert k in s.locks && s.locks[k] == u;
      }
    }
    forall k | k in s'.locks ensures s'.locks[k] in s'.threads && k in Needs(c, s'.threads[s'.locks[k]]) {
      if k != l {
        assert s.locks[k] in s.threads && k in Needs(c, s.threads[s.locks[k]]);
      }
    }
  }

  lemma NeedsOneMore(c: Config, p: Phase, l: Lock)
    requires p.Locking? && l in p.todo && p.todo <= Needs(c, p.next)
    ensures Needs(c, if p.todo == {l} then p.next else Locking(p.todo - {l}, p.next)) == Needs(c, p) + {l}
  {
    hide PairLocks, HopLocks;
    assert Needs(c, p) == Needs(c, p.next) - p.todo;
  }

  /** The table is changed only inside buckets locked by t, and new keys only by the holder of their pair. */
  ghost predicate TouchedBy(c: Config, s: State, table': map<Pos, Entry>, t: Tid) {
    && (forall p :: p in table' && p !in s.table ==> Holds(s, t, LockOf(p.bucket)))
    && (forall k :: InTable(table', k) && !InTable(s.table, k) ==> Holds(s, t, LockOf(First(s.mask, c.hash(k)))))
  }

  lemma PairIsLocked(c: Config, key: Key, mask: bv64, bucket: bv64)
    requires InPair(mask, c.hash(key), bucket)
    ensures LockOf(bucket) in PairLocks(c, key, mask) && LockOf(First(mask, c.hash(key))) in PairLocks(c, key, mask)
  {
    hide First, Second, LockInd;
  }

  /** Sizes that give the key the same two buckets give it the same two locks. */
  lemma SamePairs(c: Config, key: Key, m: bv64, m': bv64)
    requires SamePair(c.hash(key), m, m')
    ensures PairLocks(c, key, m) == PairLocks(c, key, m')
    ensures forall b :: InPair(m, c.hash(key), b) <==> InPair(m', c.hash(key), b)
  {
    hide First, Second, LockInd;
  }

  /** Another thread's view survives: what it relies on is behind locks it holds itself. */
  lemma OtherKeeps(c: Config, s: State, s': State, t: Tid, u: Tid, p: Phase)
    requires u != t && PhaseInv(c, s, p) && forall l :: l in Needs(c, p) ==> Holds(s, u, l)
    requires s'.gen == s.gen && s'.mask == s.mask && TouchedBy(c, s, s'.table, t)
    ensures PhaseInv(c, s', p)
  {
    if p.Freed? || p.Ready? {
      PinnedKeeps(c, s, s', t, u, p);
    } else {
      hide InPair, AltIndex, PathOk, PairLocks, HopLocks, TouchedBy;
    }
  }

  lemma PinnedKeeps(c: Config, s: State, s': State, t: Tid, u: Tid, p: Phase)
    requires p.Freed? || p.Ready?
    requires u != t && PhaseInv(c, s, p) && forall l :: l in Needs(c, p) ==> Holds(s, u, l)
    requires s'.gen == s.gen && s'.mask == s.mask && TouchedBy(c, s, s'.table, t)
    ensures PhaseInv(c, s', p)
  {
    hide InPair, AltIndex, PathOk, First, LockOf, PairLocks, InTable, SamePair;
    PairNotEmpty(c, p.op.key, p.snap.mask);
    assert Needs(c, p) == PairLocks(c, p.op.key, p.snap.mask);
    SameSnap(c, s, p);
    SamePairs(c, p.op.key, p.snap.mask, s.mask);
    PairIsLocked(c, p.op.key, s.mask, p.pos.bucket);
    assert Holds(s, u, LockOf(p.pos.bucket)) && Holds(s, u, LockOf(First(s.mask, c.hash(p.op.key))));
  }

  /** An up-to-date snapshot gives the right pair in every phase. */
  lemma SameSnap(c: Config, s: State, p: Phase)
    requires HasSnap(p) && SnapOk(c, s, p) && p.snap.gen == s.gen
    ensures SamePair(c.hash(p.op.key), p.snap.mask, s.mask)
  {
    hide First, Second;
  }

  /** A step that moves thread t to phase p and changes the table behind its locks keeps the invariant. */
  lemma ChangeKeeps(c: Config, s: State, t: Tid, p: Phase, table': map<Pos, Entry>, counters': map<Lock, int>)
    requires Inv(c, s) && t in s.threads && Needs(c, p) <= Needs(c, s.threads[t])
    requires Placed(c, table', s.mask) && Unique(table') && Sum(counters') == |table'|
    requires TouchedBy(c, s, table', t)
    requires PhaseInv(c, s.(table := table'), p)
    ensures Inv(c, Goto(c, s, t, p).(table := table', counters := counters'))
  {
    hide Needs, Placed, Unique, TouchedBy, Sum, PhaseInv, HoldsLocks;
    var g := Goto(c, s, t, p);
    var s' := g.(table := table', counters := counters');
    GotoLocks(c, s, t, p);
    LocksOnly(c, g, s');
    forall u | u in s'.threads ensures PhaseInv(c, s', s'.threads[u]) {
      if u != t {
        assert PhaseInv(c, s, s.threads[u]);
        HoldsItsLocks(c, s, u);
        OtherKeeps(c, s, s', t, u, s.threads[u]);
      } else {
        PhaseView(c, s.(table := table'), s', p);
      }
    }
  }

  lemma HoldsItsLocks(c: Config, s: State, u: Tid)
    requires HoldsLocks(c, s) && u in s.threads
    ensures forall l :: l in Needs(c, s.threads[u]) ==> Holds(s, u, l)
  {
    hide Needs;
  }

  lemma LocksOnly(c: Config, g: State, s': State)
    requires HoldsLocks(c, g) && s'.locks == g.locks && s'.threads == g.threads
    ensures HoldsLocks(c, s')
  {
    hide Needs;
  }

  lemma PhaseView(c: Config, a: State, b: State, p: Phase)
    requires PhaseInv(c, a, p) && a.table == b.table && a.gen == b.gen && a.mask == b.mask
    ensures PhaseInv(c, b, p)
  {
    hide InPair, PathOk, InTable, Needs;
  }

  lemma GotoKeeps(c: Config, s: State, t: Tid, p: Phase)
    requires Inv(c, s) && t in s.threads && Needs(c, p) <= Needs(c, s.threads[t])
    requires PhaseInv(c, s, p)
    ensures Inv(c, Goto(c, s, t, p))
  {
    hide Needs, Placed, Unique, PhaseInv, Sum;
    assert s.(table := s.table) == s;
    ChangeKeeps(c, s, t, p, s.table, s.counters);
    var g := Goto(c, s, t, p);
    assert g.(table := s.table, counters := s.counters) == g;
  }

  // ----- the steps

  /** The resize counter is loaded after the table size. A resize that falls in between tears the snapshot, and the
      tear matters when the two sizes give the key different buckets. */
  ghost predicate Torn(c: Config, s: State, t: Tid, step: Step) {
    && step.LoadCounter? && t in s.threads && s.threads[t].PowerRead?
    && !SamePair(c.hash(s.threads[t].op.key), s.threads[t].mask, s.mask)
  }

  /** Lock bookkeeping and table reads: the phase the thread goes to. */
  ghost function QuietGoal(c: Config, s: State, p: Phase, step: Step): Phase {
    match step
    case Call(op) => Fresh(op)
    case LoadPower => if p.Fresh? then PowerRead(p.op, s.mask) else p
    case LoadCounter => if p.PowerRead? then Want(p.op, Snap(p.mask, s.gen)) else p
    case StartLocking => Locking(Needs(c, LockGoal(p)), LockGoal(p))
    case InsertRoom(pos) => if p.Looking? then Ready(p.op, p.snap, pos) else p
    case InsertFull => if p.Looking? then Searching(p.op, Snap(s.mask, s.gen)) else p
    case PathFound(path, depth) => if p.Searching? then Moving(p.op, p.snap, path, depth) else p
    case PathFailed => if p.Searching? then Fresh(p.op) else p
    case Land =>
      if p.Landing? && |p.path| > 0 then
        if p.path[0].pos in s.table then Searching(p.op, p.snap) else Freed(p.op, p.snap, p.path[0].pos)
      else p
    case Recheck => if p.Freed? then Ready(p.op, p.snap, p.pos) else p
    case _ => Idle
  }

  predicate Quiet(step: Step) {
    !step.TakeLock? && !step.EraseHit? && !step.Add? && !step.Hop1?
  }

  lemma QuietStepGoes(c: Config, s: State, s': State, t: Tid, step: Step)
    requires NextThread(c, s, s', t, step) && Quiet(step)
    ensures s' == Goto(c, s, t, QuietGoal(c, s, s.threads[t], step))
  {
    hide Needs, PathOk, InPair, SeenInPair, Goto;
  }

  lemma QuietGoalIsSound(c: Config, s: State, s': State, t: Tid, step: Step)
    requires Placed(c, s.table, s.mask) && NextThread(c, s, s', t, step) && !Torn(c, s, t, step) && Quiet(step)
    requires PhaseInv(c, s, s.threads[t])
    ensures PhaseInv(c, s, QuietGoal(c, s, s.threads[t], step))
    ensures Needs(c, QuietGoal(c, s, s.threads[t], step)) <= Needs(c, s.threads[t])
  {
    hide PhaseInv, Needs, QuietGoal, Placed, Goto, SeenInPair, PathOk, InPair, Torn;
    if step.InsertRoom? || step.InsertFull? || step.Recheck? {
      InsertIsSound(c, s, s', t, step);
    } else if step.PathFound? {
      FoundIsSound(c, s, s', t, step);
    } else if step.StartLocking? || step.Land? {
      LocksAreSound(c, s, s', t, step);
    } else {
      OutsideIsSound(c, s, s', t, step);
    }
  }

  lemma LocksAreSound(c: Config, s: State, s': State, t: Tid, step: Step)
    requires NextThread(c, s, s', t, step) && (step.StartLocking? || step.Land?) && PhaseInv(c, s, s.threads[t])
    ensures PhaseInv(c, s, QuietGoal(c, s, s.threads[t], step))
    ensures Needs(c, QuietGoal(c, s, s.threads[t], step)) <= Needs(c, s.threads[t])
  {
    hide PhaseInv, Needs, Goto;
    if step.StartLocking? {
      StartIsSound(c, s, s.threads[t]);
    } else {
      LandIsSound(c, s, s.threads[t]);
    }
  }

  /** Steps into phases without locks: calls, loads, returns and failed searches. */
  lemma OutsideIsSound(c: Config, s: State, s': State, t: Tid, step: Step)
    requires NextThread(c, s, s', t, step) && !Torn(c, s, t, step) && Quiet(step)
    requires !step.InsertRoom? && !step.InsertFull? && !step.Recheck? && !step.PathFound? && !step.StartLocking?
    requires !step.Land?
    ensures PhaseInv(c, s, QuietGoal(c, s, s.threads[t], step))
    ensures Needs(c, QuietGoal(c, s, s.threads[t], step)) <= Needs(c, s.threads[t])
  {
    hide PathOk, Goto, SamePair, SeenInPair, Answers, LockGoal;
    var p, q := s.threads[t], QuietGoal(c, s, s.threads[t], step);
    assert Needs(c, q) == {};
  }

  /** The search has found a path. */
  lemma FoundIsSound(c: Config, s: State, s': State, t: Tid, step: Step)
    requires NextThread(c, s, s', t, step) && step.PathFound? && PhaseInv(c, s, s.threads[t])
    ensures PhaseInv(c, s, QuietGoal(c, s, s.threads[t], step))
    ensures Needs(c, QuietGoal(c, s, s.threads[t], step)) <= Needs(c, s.threads[t])
  {
    hide PathOk, Goto, SamePair;
  }

  /** An insertion that has looked into both buckets. */
  lemma InsertIsSound(c: Config, s: State, s': State, t: Tid, step: Step)
    requires Placed(c, s.table, s.mask) && NextThread(c, s, s', t, step) && PhaseInv(c, s, s.threads[t])
    requires step.InsertRoom? || step.InsertFull? || step.Recheck?
    ensures PhaseInv(c, s, QuietGoal(c, s, s.threads[t], step))
    ensures Needs(c, QuietGoal(c, s, s.threads[t], step)) <= Needs(c, s.threads[t])
  {
    hide InPair, AltIndex, First, LockOf, Placed, SeenInPair, Goto, PairLocks, SamePair, PathOk, HopLocks;
    var p := s.threads[t];
    PairIsEnoughFor(c, s, p);
    PairNotEmpty(c, p.op.key, p.snap.mask);
    PairIsReflexive(c.hash(p.op.key), s.mask);
  }

  lemma QuietStepKeeps(c: Config, s: State, s': State, t: Tid, step: Step)
    requires Inv(c, s) && NextThread(c, s, s', t, step) && !Torn(c, s, t, step) && Quiet(step)
    ensures Inv(c, s')
  {
    hide NextThread, Torn, PhaseInv, Needs, Placed, Unique, HoldsLocks, Sum, QuietGoal, Goto;
    QuietStepGoes(c, s, s', t, step);
    StepThread(c, s, s', t, step);
    QuietGoalIsSound(c, s, s', t, step);
    GotoKeeps(c, s, t, QuietGoal(c, s, s.threads[t], step));
  }

  lemma StepThread(c: Config, s: State, s': State, t: Tid, step: Step)
    requires NextThread(c, s, s', t, step) && ThreadsInv(c, s)
    ensures t in s.threads && PhaseInv(c, s, s.threads[t])
  {
    hide PhaseInv, Goto, PathOk, SeenInPair;
  }

  lemma PairIsEnoughFor(c: Config, s: State, p: Phase)
    requires Placed(c, s.table, s.mask) && PhaseInv(c, s, p)
    ensures (p.Looking? || p.Freed?) ==> (SeenInPair(c, s, p.op.key, p.snap.mask) <==> InTable(s.table, p.op.key))
    ensures (p.Looking? || p.Freed?) ==> p.snap.gen == s.gen
    ensures p.Freed? ==> p.snap.mask == s.mask
    ensures p.Looking? ==> SamePair(c.hash(p.op.key), p.snap.mask, s.mask)
  {
    hide InPair, PathOk, Placed, LockOf, SamePair;
    if p.Looking? || p.Freed? {
      PairNotEmpty(c, p.op.key, p.snap.mask);
      assert Needs(c, p) == PairLocks(c, p.op.key, p.snap.mask);
      SameSnap(c, s, p);
      SamePairs(c, p.op.key, p.snap.mask, s.mask);
      SeenSame(c, s, p.op.key, p.snap.mask, s.mask);
      PairIsEnough(c, s, p.op.key);
    }
  }

  lemma SeenSame(c: Config, s: State, key: Key, m: bv64, m': bv64)
    requires forall b :: InPair(m, c.hash(key), b) <==> InPair(m', c.hash(key), b)
    ensures SeenInPair(c, s, key, m) <==> SeenInPair(c, s, key, m')
  {
    hide InPair;
    if pos :| KeyAt(c, s, key, m, pos) {
      assert KeyAt(c, s, key, m', pos);
    }
    if pos :| KeyAt(c, s, key, m', pos) {
      assert KeyAt(c, s, key, m, pos);
    }
  }

  lemma PairIsReflexive(hash: bv64, m: bv64)
    ensures SamePair(hash, m, m)
  {
    hide First, Second;
  }

  lemma StartIsSound(c: Config, s: State, p: Phase)
    requires PhaseInv(c, s, p) && (p.Want? || p.Moving?)
    ensures var l := Locking(Needs(c, LockGoal(p)), LockGoal(p)); PhaseInv(c, s, l) && Needs(c, l) == {}
  {
    hide InPair, AltIndex, PathOk, First, LockOf, PairLocks;
    var next := LockGoal(p);
    PairNotEmpty(c, p.op.key, p.snap.mask);
    assert next.Swapping? ==> LockOf(next.path[next.depth].pos.bucket) in Needs(c, next);
    assert Needs(c, next) != {};
  }

  lemma PairNotEmpty(c: Config, key: Key, mask: bv64)
    ensures PairLocks(c, key, mask) != {}
  {
    hide LockOf;
    assert LockOf(First(mask, c.hash(key))) in PairLocks(c, key, mask);
  }

  lemma LandIsSound(c: Config, s: State, p: Phase)
    requires PhaseInv(c, s, p) && p.Landing? && |p.path| > 0
    ensures var q := if p.path[0].pos in s.table then Searching(p.op, p.snap) else Freed(p.op, p.snap, p.path[0].pos);
            PhaseInv(c, s, q) && Needs(c, q) <= Needs(c, p)
  {
    hide InPair, AltIndex, First, LockOf, PairLocks;
    PairNotEmpty(c, p.op.key, p.snap.mask);
  }

  lemma TakeLockStep(c: Config, s: State, s': State, t: Tid, l: Lock)
    requires NextThread(c, s, s', t, TakeLock(l))
    ensures t in s.threads && s.threads[t].Locking? && HasSnap(s.threads[t].next)
    ensures l in s.threads[t].todo && l !in s.locks
    ensures var p := s.threads[t];
            if p.todo == Needs(c, p.next) && p.next.snap.gen != s.gen then s' == Goto(c, s, t, Fresh(p.next.op))
            else s' == s.(locks := s.locks[l := t],
                          threads := s.threads[t := if p.todo == {l} then p.next else Locking(p.todo - {l}, p.next)])
  {
    hide Goto, Needs;
  }

  lemma LockingFacts(c: Config, s: State, p: Phase)
    requires PhaseInv(c, s, p) && p.Locking?
    ensures HasSnap(p.next) && p.todo <= Needs(c, p.next) && (p.todo != Needs(c, p.next) ==> p.next.snap.gen == s.gen)
    ensures PhaseInv(c, s, Fresh(p.next.op)) && Needs(c, Fresh(p.next.op)) == {}
  {
    hide PathOk, PairLocks, HopLocks;
  }

  lemma TakeLockKeeps(c: Config, s: State, s': State, t: Tid, step: Step)
    requires Inv(c, s) && NextThread(c, s, s', t, step) && step.TakeLock?
    ensures Inv(c, s')
  {
    hide NextThread, PhaseInv, Needs, Placed, Unique, HoldsLocks, Sum;
    TakeLockStep(c, s, s', t, step.lock);
    var p := s.threads[t];
    assert PhaseInv(c, s, p);
    LockingFacts(c, s, p);
    if p.todo == Needs(c, p.next) && p.next.snap.gen != s.gen {
      GotoKeeps(c, s, t, Fresh(p.next.op));
    } else {
      TakeLocks(c, s, s', t, step.lock);
      forall u | u in s'.threads ensures PhaseInv(c, s', s'.threads[u]) {
        if u != t {
          assert PhaseInv(c, s, s.threads[u]);
          PhaseView(c, s, s', s.threads[u]);
        } else {
          LockedPhase(c, s, s', p, step.lock);
        }
      }
    }
  }

  lemma LockedPhase(c: Config, s: State, s': State, p: Phase, l: Lock)
    requires PhaseInv(c, s, p) && p.Locking? && l in p.todo && p.next.snap.gen == s.gen
    requires s'.table == s.table && s'.gen == s.gen && s'.mask == s.mask
    ensures PhaseInv(c, s', if p.todo == {l} then p.next else Locking(p.todo - {l}, p.next))
  {
    hide InPair, AltIndex, PathOk, First, LockOf, PairLocks, HopLocks, InTable;
    if p.todo != {l} {
      var k :| k in p.todo && k != l;
      assert k in p.todo - {l} && l !in p.todo - {l};
    }
  }

  lemma EraseStep(c: Config, s: State, s': State, t: Tid, step: Step)
    requires NextThread(c, s, s', t, step) && step.EraseHit?
    ensures t in s.threads && s.threads[t].Looking? && step.pos in s.table &&
            s.table[step.pos].key == s.threads[t].op.key
    ensures s' == Goto(c, s, t, Idle).(table := s.table - {step.pos},
                                       counters := s.counters[LockOf(step.pos.bucket) :=
                                                                Counter(s, LockOf(step.pos.bucket)) - 1])
  {
    hide Goto, LockOf;
  }

  lemma EraseKeeps(c: Config, s: State, s': State, t: Tid, step: Step)
    requires Inv(c, s) && NextThread(c, s, s', t, step) && step.EraseHit?
    ensures Inv(c, s')
  {
    hide NextThread, PhaseInv, InPair, LockOf, Placed, Unique, HoldsLocks, InTable, Goto, Sum;
    EraseStep(c, s, s', t, step);
    EraseKeepsTable(c, s.table, s.mask, step.pos);
    SumUpdate(s.counters, LockOf(step.pos.bucket), Counter(s, LockOf(step.pos.bucket)) - 1);
    IdleIsSound(c, s.(table := s'.table));
    ChangeKeeps(c, s, t, Idle, s'.table, s'.counters);
  }

  lemma AddStep(c: Config, s: State, s': State, t: Tid, step: Step)
    requires NextThread(c, s, s', t, step) && step.Add?
    ensures t in s.threads && s.threads[t].Ready? && s.threads[t].op.Insert?
    ensures var p := s.threads[t];
            s' == Goto(c, s, t, Idle).(table := s.table[p.pos := Entry(p.op.key, p.op.value)],
                                       counters := s.counters[LockOf(p.pos.bucket) :=
                                                                Counter(s, LockOf(p.pos.bucket)) + 1])
  {
    hide Goto, LockOf;
  }

  lemma AddTouches(c: Config, s: State, t: Tid, p: Phase, table': map<Pos, Entry>)
    requires p.Ready? && p.op.Insert? && PhaseInv(c, s, p) && forall l :: l in Needs(c, p) ==> Holds(s, t, l)
    requires table' == s.table[p.pos := Entry(p.op.key, p.op.value)]
    requires forall k :: InTable(table', k) <==> InTable(s.table, k) || k == p.op.key
    ensures TouchedBy(c, s, table', t)
  {
    hide InPair, First, LockOf, PairLocks, InTable, SamePair;
    PairNotEmpty(c, p.op.key, p.snap.mask);
    assert Needs(c, p) == PairLocks(c, p.op.key, p.snap.mask);
    SameSnap(c, s, p);
    SamePairs(c, p.op.key, p.snap.mask, s.mask);
    PairIsLocked(c, p.op.key, s.mask, p.pos.bucket);
  }

  lemma ReadyFacts(c: Config, s: State, p: Phase)
    requires p.Ready? && PhaseInv(c, s, p)
    ensures p.pos !in s.table && p.pos.slot < c.slots
    ensures InPair(s.mask, c.hash(p.op.key), p.pos.bucket) && !InTable(s.table, p.op.key)
  {
    hide InPair, InTable, PairLocks, SamePair;
    PairNotEmpty(c, p.op.key, p.snap.mask);
    assert Needs(c, p) == PairLocks(c, p.op.key, p.snap.mask);
    SameSnap(c, s, p);
    SamePairs(c, p.op.key, p.snap.mask, s.mask);
  }

  lemma AddKeeps(c: Config, s: State, s': State, t: Tid, step: Step)
    requires Inv(c, s) && NextThread(c, s, s', t, step) && step.Add?
    ensures Inv(c, s')
  {
    hide NextThread, PhaseInv, InPair, LockOf, Placed, Unique, HoldsLocks, TouchedBy, InTable, Goto, Sum;
    AddStep(c, s, s', t, step);
    var p := s.threads[t];
    assert PhaseInv(c, s, p);
    HoldsItsLocks(c, s, t);
    ReadyFacts(c, s, p);
    AddKeepsTable(c, s.table, s.mask, p.pos, Entry(p.op.key, p.op.value));
    SumUpdate(s.counters, LockOf(p.pos.bucket), Counter(s, LockOf(p.pos.bucket)) + 1);
    AddTouches(c, s, t, p, s'.table);
    IdleIsSound(c, s.(table := s'.table));
    ChangeKeeps(c, s, t, Idle, s'.table, s'.counters);
  }

  lemma IdleIsSound(c: Config, s: State)
    ensures PhaseInv(c, s, Idle) && Needs(c, Idle) == {}
  {}

  ghost predicate Stale(c: Config, s: State, p: Phase)
    requires p.Swapping? && 0 < p.depth < |p.path|
  {
    var from, to := p.path[p.depth - 1], p.path[p.depth];
    to.pos in s.table || from.pos !in s.table || c.hash(s.table[from.pos].key) != from.hash
  }

  function AfterHop(p: Phase): Phase
    requires p.Swapping? && 0 < p.depth < |p.path|
  {
    if p.depth == 1 then Freed(p.op, p.snap, p.path[0].pos) else Moving(p.op, p.snap, p.path, p.depth - 1)
  }

  lemma HopStep(c: Config, s: State, s': State, t: Tid, step: Step)
    requires NextThread(c, s, s', t, step) && step.Hop1?
    ensures t in s.threads && s.threads[t].Swapping? && 0 < s.threads[t].depth < |s.threads[t].path|
    ensures var p := s.threads[t];
            var from, to := p.path[p.depth - 1].pos, p.path[p.depth].pos;
            if Stale(c, s, p) then s' == Goto(c, s, t, Searching(p.op, p.snap))
            else s' == Goto(c, s, t, AfterHop(p)).(table := (s.table - {from})[to := s.table[from]])
  {
    hide Goto;
  }

  lemma HopHappens(c: Config, s: State, s': State, t: Tid)
    requires t in s.threads && s.threads[t].Swapping? && 0 < s.threads[t].depth < |s.threads[t].path|
    requires var p := s.threads[t];
             var from, to := p.path[p.depth - 1].pos, p.path[p.depth].pos;
             if Stale(c, s, p) then s' == Goto(c, s, t, Searching(p.op, p.snap))
             else s' == Goto(c, s, t, AfterHop(p)).(table := (s.table - {from})[to := s.table[from]])
    ensures NextThread(c, s, s', t, Hop1)
  {
    hide Goto;
  }

  lemma HopFacts(c: Config, s: State, p: Phase)
    requires p.Swapping? && 0 < p.depth < |p.path| && PhaseInv(c, s, p)
    ensures p.snap.mask == s.mask && p.snap.gen == s.gen && p.path[p.depth].pos.slot < c.slots
    ensures PathOk(c, p.op.key, p.snap.mask, p.path)
    ensures p.path[p.depth].pos.bucket ==
              AltIndex(s.mask, PartialKey(p.path[p.depth - 1].hash), p.path[p.depth - 1].pos.bucket)
    ensures LockOf(p.path[p.depth].pos.bucket) in Needs(c, p)
    ensures Needs(c, AfterHop(p)) <= Needs(c, p)
  {
    hide InPair, AltIndex, PartialKey, PairLocks, LockOf;
    assert LockOf(p.path[p.depth].pos.bucket) in Needs(c, p);
  }

  lemma AfterHopIsSound(c: Config, s: State, p: Phase)
    requires p.Swapping? && 0 < p.depth < |p.path| && PathOk(c, p.op.key, p.snap.mask, p.path)
    requires p.snap.gen == s.gen && p.snap.mask == s.mask && p.path[p.depth - 1].pos !in s.table
    ensures PhaseInv(c, s, AfterHop(p))
  {
    hide InPair, AltIndex, PartialKey, PairLocks;
  }

  lemma HopTouches(c: Config, s: State, t: Tid, from: Pos, to: Pos, table': map<Pos, Entry>)
    requires from in s.table && table' == (s.table - {from})[to := s.table[from]]
    requires Holds(s, t, LockOf(to.bucket))
    requires forall k :: InTable(table', k) <==> InTable(s.table, k)
    ensures TouchedBy(c, s, table', t)
  {
    hide InTable, LockOf, Holds;
    forall p | p in table' && p !in s.table ensures p == to {}
  }

  lemma SwapKeeps(c: Config, s: State, t: Tid)
    requires Inv(c, s) && t in s.threads && s.threads[t].Swapping? && 0 < s.threads[t].depth < |s.threads[t].path|
    requires !Stale(c, s, s.threads[t])
    ensures var p := s.threads[t];
            var from, to := p.path[p.depth - 1].pos, p.path[p.depth].pos;
            var table' := (s.table - {from})[to := s.table[from]];
            Inv(c, Goto(c, s, t, AfterHop(p)).(table := table')) && SameEntries(s.table, table')
  {
    hide PhaseInv, Placed, Unique, HoldsLocks, Sum, Needs, AltIndex, PartialKey, LockOf, InTable, AfterHop, PathOk;
    hide TouchedBy, SameEntries, Goto;
    var p := s.threads[t];
    assert PhaseInv(c, s, p);
    var from, to := p.path[p.depth - 1].pos, p.path[p.depth].pos;
    var table' := (s.table - {from})[to := s.table[from]];
    HopFacts(c, s, p);
    HoldsItsLocks(c, s, t);
    HopKeepsTable(c, s.table, s.mask, from, to);
    AfterHopIsSound(c, s.(table := table'), p);
    HopTouches(c, s, t, from, to, table');
    assert table'.Keys == s.table.Keys - {from} + {to};
    ChangeKeeps(c, s, t, AfterHop(p), table', s.counters);
    GotoCounters(c, s, t, AfterHop(p), table');
  }

  lemma GotoCounters(c: Config, s: State, t: Tid, p: Phase, table': map<Pos, Entry>)
    requires t in s.threads
    ensures Goto(c, s, t, p).(table := table', counters := s.counters) == Goto(c, s, t, p).(table := table')
  {
    hide Needs;
  }

  lemma HopKeeps(c: Config, s: State, s': State, t: Tid, step: Step)
    requires Inv(c, s) && NextThread(c, s, s', t, step) && step.Hop1?
    ensures Inv(c, s') && SameEntries(s.table, s'.table)
  {
    hide NextThread, PhaseInv, Placed, Unique, HoldsLocks, Sum, Needs, AltIndex, PartialKey, LockOf, InTable, AfterHop;
    hide PathOk;
    HopStep(c, s, s', t, step);
    var p := s.threads[t];
    if Stale(c, s, p) {
      assert PhaseInv(c, s, p);
      SearchIsSound(c, s, p);
      GotoKeeps(c, s, t, Searching(p.op, p.snap));
    } else {
      SwapKeeps(c, s, t);
    }
  }

  lemma SearchIsSound(c: Config, s: State, p: Phase)
    requires HasSnap(p) && !FirstSnap(p) && PhaseInv(c, s, p)
    ensures PhaseInv(c, s, Searching(p.op, p.snap)) && Needs(c, Searching(p.op, p.snap)) == {}
  {
    hide PathOk, PairLocks, HopLocks, InTable;
  }

  /** A doubling moves every entry to one of its two buckets in the larger table and none twice. */
  lemma ResizeKeeps(c: Config, s: State, s': State)
    requires Inv(c, s) && CD.Resize(c, s, s')
    ensures Inv(c, s') && SameEntries(s.table, s'.table)
  {
    hide Placed, Unique, Sum, Needs, PhaseInv, IsMask, Doubled, CD.AllMoved, HoldsLocks;
    CD.AllMovedIs(c, s.mask, s.table, s'.table);
    CuckooStripe.DoubledKeepsMask(s.mask);
    LocksOnly(c, s, s');
    forall t | t in s'.threads ensures PhaseInv(c, s', s'.threads[t]) {
      assert PhaseInv(c, s, s.threads[t]);
      HoldsItsLocks(c, s, t);
      assert forall l :: l in Needs(c, s.threads[t]) ==> Holds(s, t, l);
      assert Needs(c, s.threads[t]) == {};
      UnlockedSurvives(c, s, s', s.threads[t]);
    }
  }

  /** A thread without locks relies on nothing but its snapshot, which a resize makes outdated. */
  lemma UnlockedSurvives(c: Config, s: State, s': State, p: Phase)
    requires PhaseInv(c, s, p) && Needs(c, p) == {} && s'.gen == s.gen + 1
    ensures PhaseInv(c, s', p)
  {
    hide InPair, AltIndex, PathOk, LockOf, HopLocks, PairLocks, InTable;
    if p.Freed? || p.Ready? {
      PairNotEmpty(c, p.op.key, p.snap.mask);
    }
    if p.Locking? {
      assert Needs(c, p) == Needs(c, p.next) - p.todo;
      assert forall l :: l in Needs(c, p.next) ==> l in p.todo || l in Needs(c, p);
      assert p.todo == Needs(c, p.next);
    }
  }

  /** Every step of every thread, and every resize, keeps the invariant, as long as no snapshot is torn. */
  lemma StepKeeps(c: Config, s: State, s': State, t: Tid, step: Step)
    requires Inv(c, s) && NextThread(c, s, s', t, step) && !Torn(c, s, t, step)
    ensures Inv(c, s')
  {
    hide Inv, NextThread, Torn;
    match step
    case TakeLock(_) => TakeLockKeeps(c, s, s', t, step);
    case EraseHit(_) => EraseKeeps(c, s, s', t, step);
    case Add => AddKeeps(c, s, s', t, step);
    case Hop1 => HopKeeps(c, s, s', t, step);
    case _ => QuietStepKeeps(c, s, s', t, step);
  }

  // ----- what the steps do to the abstract map

  /** A lookup under the pair locks is exact for the whole table. */
  lemma LookupIsExact(c: Config, s: State, t: Tid)
    requires Inv(c, s) && t in s.threads && (s.threads[t].Looking? || s.threads[t].Freed?)
    ensures var p := s.threads[t]; SeenInPair(c, s, p.op.key, p.snap.mask) <==> InTable(s.table, p.op.key)
  {
    hide PhaseInv, Placed, Unique, HoldsLocks, Sum;
    assert PhaseInv(c, s, s.threads[t]);
    PairIsEnoughFor(c, s, s.threads[t]);
  }

  /** A find returns the value stored under its key, and nothing exactly when the key is not stored. */
  lemma FindReturnsStored(c: Config, s: State, s': State, t: Tid, found: Option<Value>, v: Value)
    requires Inv(c, s) && NextThread(c, s, s', t, ReturnFind(found))
    ensures found == Some(v) <==> Entry(s.threads[t].op.key, v) in s.table.Values
    ensures found == None <==> !InTable(s.table, s.threads[t].op.key)
  {
    hide PhaseInv, Placed, HoldsLocks, Sum, Goto, InPair;
    LookupIsExact(c, s, t);
    var key := s.threads[t].op.key;
    if found.Some? {
      var pos :| KeyAt(c, s, key, s.threads[t].snap.mask, pos) && s.table[pos].value == found.value;
      assert s.table[pos] == Entry(key, found.value);
    }
    if Entry(key, v) in s.table.Values {
      var q :| q in s.table && s.table[q] == Entry(key, v);
    }
  }

  /** Only Add and EraseHit change the entries: Add puts in one entry under an absent key, EraseHit takes out the one
      entry of its key. An erasure that finds nothing and an insertion that finds its key tell the truth. */
  lemma StepEffect(c: Config, s: State, s': State, t: Tid, step: Step)
    requires Inv(c, s) && NextThread(c, s, s', t, step) && !Torn(c, s, t, step)
    ensures !step.Add? && !step.EraseHit? ==> SameEntries(s.table, s'.table)
    ensures step.Add? ==>
      && s.threads[t].op.Insert? && !InTable(s.table, s.threads[t].op.key)
      && s'.table.Values == s.table.Values + {Entry(s.threads[t].op.key, s.threads[t].op.value)}
    ensures step.EraseHit? ==>
      && step.pos in s.table && s.table[step.pos].key == s.threads[t].op.key
      && s'.table.Values == s.table.Values - {s.table[step.pos]}
      && !InTable(s'.table, s.threads[t].op.key)
    ensures step.EraseMiss? ==> s.threads[t].op.Erase? && !InTable(s.table, s.threads[t].op.key)
    ensures step.InsertDuplicate? ==> s.threads[t].op.Insert? && InTable(s.table, s.threads[t].op.key)
  {
    hide PhaseInv, Placed, HoldsLocks, Sum, Goto, InTable;
    if step.Add? {
      hide NextThread, Unique;
      AddStep(c, s, s', t, step);
      var p := s.threads[t];
      assert PhaseInv(c, s, p);
      ReadyFacts(c, s, p);
      ValuesAfterAdd(s.table, p.pos, Entry(p.op.key, p.op.value));
    } else if step.Hop1? {
      hide NextThread, Unique;
      HopKeeps(c, s, s', t, step);
    } else if step.EraseHit? {
      hide NextThread;
      EraseStep(c, s, s', t, step);
      EraseKeepsTable(c, s.table, s.mask, step.pos);
      ValuesAfterErase(s.table, step.pos);
    } else {
      hide Unique;
      SameTable(c, s, s', t, step);
      if step.EraseMiss? || step.InsertDuplicate? {
        ReturnsAreExact(c, s, s', t, step);
      }
    }
  }

  lemma ReturnsAreExact(c: Config, s: State, s': State, t: Tid, step: Step)
    requires Inv(c, s) && NextThread(c, s, s', t, step) && (step.EraseMiss? || step.InsertDuplicate?)
    ensures step.EraseMiss? ==> s.threads[t].op.Erase? && !InTable(s.table, s.threads[t].op.key)
    ensures step.InsertDuplicate? ==> s.threads[t].op.Insert? && InTable(s.table, s.threads[t].op.key)
  {
    hide Inv, InTable, SeenInPair, Goto;
    LookupIsExact(c, s, t);
  }

  lemma ValuesAfterAdd(table: map<Pos, Entry>, pos: Pos, e: Entry)
    requires pos !in table
    ensures table[pos := e].Values == table.Values + {e}
  {
    var u := table[pos := e];
    forall x | x in table.Values ensures x in u.Values {
      var p :| p in table && table[p] == x;
      assert p in u && u[p] == x;
    }
    assert pos in u && u[pos] == e;
  }

  lemma ValuesAfterErase(table: map<Pos, Entry>, pos: Pos)
    requires pos in table && Unique(table)
    ensures (table - {pos}).Values == table.Values - {table[pos]}
  {
    var u := table - {pos};
    forall x | x in table.Values && x != table[pos] ensures x in u.Values {
      var p :| p in table && table[p] == x;
      assert p in u && u[p] == x;
    }
  }

  lemma SameTable(c: Config, s: State, s': State, t: Tid, step: Step)
    requires NextThread(c, s, s', t, step) && !step.Add? && !step.EraseHit? && !step.Hop1?
    ensures s'.table == s.table
  {
    hide Needs, PathOk, SeenInPair, Answers, InPair, LockGoal;
  }

  // ----- runs

  datatype Move = ThreadMove(t: Tid, step: Step) | ResizeMove

  ghost predicate Next(c: Config, s: State, s': State, m: Move) {
    match m
    case ThreadMove(t, step) => NextThread(c, s, s', t, step)
    case ResizeMove => CD.Resize(c, s, s')
  }

  ghost predicate Init(s: State) {
    && IsMask(s.mask) && s.table == map[] && s.locks == map[] && s.gen == 0 && s.counters == map[]
    && forall t :: t in s.threads ==> s.threads[t].Idle?
  }

  ghost predicate IsRun(c: Config, states: seq<State>, moves: seq<Move>) {
    && |states| == |moves| + 1 && Init(states[0])
    && forall i :: 0 <= i < |moves| ==> Next(c, states[i], states[i + 1], moves[i])
  }

  /** Whenever a resize falls between the two loads of a snapshot, the key's two buckets stay the same. */
  ghost predicate Untorn(c: Config, states: seq<State>, moves: seq<Move>)
    requires |states| == |moves| + 1
  {
    forall i :: 0 <= i < |moves| && moves[i].ThreadMove? ==> !Torn(c, states[i], moves[i].t, moves[i].step)
  }

  /** Every state of every run without a torn snapshot: each key in one of its two buckets, no key twice,
      and the counters add up to the number of entries. */
  lemma {:induction false} RunsAreSafe(c: Config, states: seq<State>, moves: seq<Move>, i: nat)
    requires IsRun(c, states, moves) && Untorn(c, states, moves) && i < |states|
    ensures Inv(c, states[i])
  {
    hide Inv, NextThread, CD.Resize, Torn;
    if i == 0 {
      InitIsSound(c, states[0]);
    } else {
      RunsAreSafe(c, states, moves, i - 1);
      var s, s', m := states[i - 1], states[i], moves[i - 1];
      assert Next(c, s, s', m);
      match m
      case ThreadMove(t, step) => StepKeeps(c, s, s', t, step);
      case ResizeMove => ResizeKeeps(c, s, s');
    }
  }

  lemma InitIsSound(c: Config, s: State)
    requires Init(s)
    ensures Inv(c, s)
  {
    hide InPair, PhaseInv, Needs;
    IdleIsSound(c, s);
    forall t | t in s.threads ensures PhaseInv(c, s, s.threads[t]) && Needs(c, s.threads[t]) == {} {
      assert s.threads[t] == Idle;
    }
  }

  // ----- the torn snapshot

  /** For one doubling the two sizes give a key the same two buckets exactly when neither the hash nor the word of the
      second bucket has the new top bit. */
  lemma DoublingKeepsPairIff(hash: bv64, m: bv64)
    requires IsMask(m) && m != CuckooStripe.ALL_ONES
    ensures SamePair(hash, m, Doubled(m)) <==> Masked(hash, TopBit(m)) == 0 && Masked(AltWord(hash), TopBit(m)) == 0
  {
    hide IsMask, Doubled, Masked, TopBit, WithTop, Second, AltWord;
    SecondIsMasked(m, hash);
    SecondIsMasked(Doubled(m), hash);
    GainsBit(hash, m);
    GainsBit(AltWord(hash), m);
    MaskIdempotent(hash, m);
    MaskIdempotent(AltWord(hash), m);
    TopBitIsFree(Masked(hash, m), m);
    TopBitIsFree(Masked(AltWord(hash), m), m);
  }

  /** Two sizes with different pairs differ in some bucket. */
  lemma PairsDiffer(hash: bv64, m: bv64, m': bv64) returns (b: bv64)
    requires !SamePair(hash, m, m')
    ensures InPair(m, hash, b) != InPair(m', hash, b)
  {
    hide First, Second;
    if !InPair(m', hash, First(m, hash)) {
      b := First(m, hash);
    } else if !InPair(m', hash, Second(m, hash)) {
      b := Second(m, hash);
    } else if !InPair(m, hash, First(m', hash)) {
      b := First(m', hash);
    } else {
      b := Second(m', hash);
    }
  }

  /** A continuation in which only thread t moves. */
  ghost predicate Follows(c: Config, states: seq<State>, moves: seq<Move>, t: Tid) {
    && |states| == |moves| + 1
    && forall i :: 0 <= i < |moves| ==>
         moves[i].ThreadMove? && moves[i].t == t && Next(c, states[i], states[i + 1], moves[i])
  }

  lemma FollowsOn(c: Config, states: seq<State>, moves: seq<Move>, t: Tid, step: Step, s': State)
    requires Follows(c, states, moves, t) && NextThread(c, states[|states| - 1], s', t, step)
    ensures Follows(c, states + [s'], moves + [ThreadMove(t, step)], t)
  {
    hide NextThread;
    var states', moves' := states + [s'], moves + [ThreadMove(t, step)];
    forall i | 0 <= i < |moves'|
      ensures moves'[i].ThreadMove? && moves'[i].t == t && Next(c, states'[i], states'[i + 1], moves'[i])
    {
      if i < |moves| {
        assert Next(c, states[i], states[i + 1], moves[i]);
      }
    }
  }

  /** Thread t in phase p with these locks, all else as in s. */
  function At(s: State, t: Tid, p: Phase, locks: map<Lock, Tid>): State {
    s.(threads := s.threads[t := p], locks := locks)
  }

  lemma GotoAt(c: Config, s: State, t: Tid, p: Phase)
    requires t in s.threads && Needs(c, s.threads[t]) <= Needs(c, p)
    ensures Goto(c, s, t, p) == At(s, t, p, s.locks)
  {
    hide Needs;
    assert Needs(c, s.threads[t]) - Needs(c, p) == {};
    assert s.locks - {} == s.locks;
  }

  ghost predicate FreeLocks(s: State, ls: set<Lock>) {
    forall l :: l in ls ==> l !in s.locks
  }

  /** From the second load of its snapshot to both locks: nothing but the counter is compared on the way. */
  lemma TornLocks(c: Config, s: State, t: Tid, op: Op, m: bv64)
    returns (states: seq<State>, moves: seq<Move>, locks: map<Lock, Tid>)
    requires t in s.threads && s.threads[t] == PowerRead(op, m) && FreeLocks(s, PairLocks(c, op.key, m))
    ensures Follows(c, states, moves, t) && states[0] == s
    ensures states[|states| - 1] == At(s, t, Looking(op, Snap(m, s.gen)), locks)
    ensures locks - PairLocks(c, op.key, m) == s.locks
  {
    hide LockOf, First, Second, NextThread, At, Needs;
    var snap := Snap(m, s.gen);
    var look := Looking(op, snap);
    var ls := PairLocks(c, op.key, m);
    var l1, l2 := LockOf(First(m, c.hash(op.key))), LockOf(Second(m, c.hash(op.key)));
    var s1, s2 := At(s, t, Want(op, snap), s.locks), At(s, t, Locking(ls, look), s.locks);
    states, moves := [s], [];
    TornLoads(c, s, t, op, m);
    FollowsOn(c, states, moves, t, LoadCounter, s1);
    FollowsOn(c, states + [s1], moves + [ThreadMove(t, LoadCounter)], t, StartLocking, s2);
    states, moves := states + [s1] + [s2], moves + [ThreadMove(t, LoadCounter)] + [ThreadMove(t, StartLocking)];
    locks := s.locks[l1 := t];
    TornTakes(c, s, t, op, snap, ls, l1, s.locks);
    if l1 == l2 {
      assert ls == {l1};
      var s3 := At(s, t, look, locks);
      FollowsOn(c, states, moves, t, TakeLock(l1), s3);
      states, moves := states + [s3], moves + [ThreadMove(t, TakeLock(l1))];
    } else {
      assert l2 in ls && l2 !in {l1} && ls - {l1} == {l2};
      var s3, s4 := At(s, t, Locking({l2}, look), locks), At(s, t, look, locks[l2 := t]);
      FollowsOn(c, states, moves, t, TakeLock(l1), s3);
      TornTakes(c, s, t, op, snap, {l2}, l2, locks);
      FollowsOn(c, states + [s3], moves + [ThreadMove(t, TakeLock(l1))], t, TakeLock(l2), s4);
      states, moves := states + [s3] + [s4], moves + [ThreadMove(t, TakeLock(l1))] + [ThreadMove(t, TakeLock(l2))];
      locks := locks[l2 := t];
    }
  }

  lemma TornLoads(c: Config, s: State, t: Tid, op: Op, m: bv64)
    requires t in s.threads && s.threads[t] == PowerRead(op, m)
    ensures var look := Looking(op, Snap(m, s.gen));
            var s1 := At(s, t, Want(op, Snap(m, s.gen)), s.locks);
            && NextThread(c, s, s1, t, LoadCounter)
            && NextThread(c, s1, At(s, t, Locking(PairLocks(c, op.key, m), look), s.locks), t, StartLocking)
  {
    hide PairLocks;
    var snap := Snap(m, s.gen);
    var look, ls := Looking(op, snap), PairLocks(c, op.key, m);
    GotoAt(c, s, t, Want(op, snap));
    var s1 := At(s, t, Want(op, snap), s.locks);
    assert Needs(c, look) == ls && LockGoal(Want(op, snap)) == look;
    GotoAt(c, s1, t, Locking(ls, look));
    assert At(s1, t, Locking(ls, look), s.locks) == At(s, t, Locking(ls, look), s.locks);
  }

  lemma TornTakes(c: Config, s: State, t: Tid, op: Op, snap: Snap, todo: set<Lock>, l: Lock, locks: map<Lock, Tid>)
    requires t in s.threads && l in todo && l !in locks && snap.gen == s.gen
    ensures var look := Looking(op, snap);
            NextThread(c, At(s, t, Locking(todo, look), locks),
                       At(s, t, if todo == {l} then look else Locking(todo - {l}, look), locks[l := t]), t, TakeLock(l))
  {
    hide PairLocks;
    var look := Looking(op, snap);
    var q := if todo == {l} then look else Locking(todo - {l}, look);
    assert s.threads[t := Locking(todo, look)][t := q] == s.threads[t := q];
  }

  /** With its snapshot, torn or not, an insertion goes through to a free slot of a bucket computed from the size it
      loaded. */
  lemma TornInsertLands(c: Config, s: State, t: Tid, op: Op, m: bv64, pos: Pos)
    returns (states: seq<State>, moves: seq<Move>)
    requires t in s.threads && s.threads[t] == PowerRead(op, m) && op.Insert? && FreeLocks(s, PairLocks(c, op.key, m))
    requires InPair(m, c.hash(op.key), pos.bucket) && pos.slot < c.slots && pos !in s.table &&
             !SeenInPair(c, s, op.key, m)
    ensures Follows(c, states, moves, t) && states[0] == s
    ensures states[|states| - 1] == Inserted(s, t, op, pos)
  {
    hide LockOf, InPair, PairLocks, NextThread, SeenInPair, Follows, At, Inserted;
    var locks;
    states, moves, locks := TornLocks(c, s, t, op, m);
    var snap := Snap(m, s.gen);
    var s2 := At(s, t, Ready(op, snap, pos), locks);
    TornAdds(c, s, t, op, snap, pos, locks);
    FollowsOn(c, states, moves, t, InsertRoom(pos), s2);
    states, moves := states + [s2], moves + [ThreadMove(t, InsertRoom(pos))];
    FollowsOn(c, states, moves, t, Add, Inserted(s, t, op, pos));
    states, moves := states + [Inserted(s, t, op, pos)], moves + [ThreadMove(t, Add)];
    FollowsFrom(c, states, moves, t);
  }

  /** Thread t has inserted and is done. */
  function Inserted(s: State, t: Tid, op: Op, pos: Pos): State
    requires op.Insert?
  {
    var l := LockOf(pos.bucket);
    s.(table := s.table[pos := Entry(op.key, op.value)], counters := s.counters[l := Counter(s, l) + 1],
       threads := s.threads[t := Idle])
  }

  lemma FollowsFrom(c: Config, states: seq<State>, moves: seq<Move>, t: Tid)
    requires Follows(c, states, moves, t)
    ensures |states| == |moves| + 1
  {
    hide Next;
  }

  lemma TornAdds(c: Config, s: State, t: Tid, op: Op, snap: Snap, pos: Pos, locks: map<Lock, Tid>)
    requires t in s.threads && op.Insert? && InPair(snap.mask, c.hash(op.key), pos.bucket) && pos.slot < c.slots
    requires pos !in s.table && !SeenInPair(c, s, op.key, snap.mask)
    requires locks - PairLocks(c, op.key, snap.mask) == s.locks
    ensures var s1, s2 := At(s, t, Looking(op, snap), locks), At(s, t, Ready(op, snap, pos), locks);
            NextThread(c, s1, s2, t, InsertRoom(pos)) && NextThread(c, s2, Inserted(s, t, op, pos), t, Add)
  {
    hide NextThread, InPair, PairLocks, SeenInPair, At, Inserted;
    TornRoom(c, s, t, op, snap, pos, locks);
    TornAdd(c, s, t, op, snap, pos, locks);
  }

  lemma TornRoom(c: Config, s: State, t: Tid, op: Op, snap: Snap, pos: Pos, locks: map<Lock, Tid>)
    requires t in s.threads && op.Insert? && InPair(snap.mask, c.hash(op.key), pos.bucket) && pos.slot < c.slots
    requires pos !in s.table && !SeenInPair(c, s, op.key, snap.mask)
    ensures NextThread(c, At(s, t, Looking(op, snap), locks), At(s, t, Ready(op, snap, pos), locks), t, InsertRoom(pos))
  {
    hide LockOf, InPair, PairLocks;
    var s1, s2 := At(s, t, Looking(op, snap), locks), At(s, t, Ready(op, snap, pos), locks);
    SeenElsewhere(c, s, s1, op.key, snap.mask);
    hide SeenInPair, Goto;
    GotoAt(c, s1, t, Ready(op, snap, pos));
    assert s2 == At(s1, t, Ready(op, snap, pos), locks);
  }

  lemma TornAdd(c: Config, s: State, t: Tid, op: Op, snap: Snap, pos: Pos, locks: map<Lock, Tid>)
    requires t in s.threads && op.Insert? && locks - PairLocks(c, op.key, snap.mask) == s.locks
    ensures NextThread(c, At(s, t, Ready(op, snap, pos), locks), Inserted(s, t, op, pos), t, Add)
  {
    hide LockOf, InPair, PairLocks;
    var s2 := At(s, t, Ready(op, snap, pos), locks);
    assert Needs(c, Ready(op, snap, pos)) - Needs(c, Idle) == PairLocks(c, op.key, snap.mask);
    assert s2.threads[t := Idle] == s.threads[t := Idle];
    assert Goto(c, s2, t, Idle) == At(s, t, Idle, s.locks);
  }

  lemma SeenElsewhere(c: Config, s: State, s1: State, key: Key, m: bv64)
    requires s1.table == s.table && !SeenInPair(c, s, key, m)
    ensures !SeenInPair(c, s1, key, m)
  {
    hide InPair;
    forall pos ensures !KeyAt(c, s1, key, m, pos) {
      assert !KeyAt(c, s, key, m, pos);
    }
  }

  /** Misplaced: the bucket with the free slot is not one of the key's buckets at the current size. */
  lemma TornMisplaces(c: Config, s: State, t: Tid, op: Op, m: bv64, pos: Pos)
    returns (states: seq<State>, moves: seq<Move>)
    requires t in s.threads && s.threads[t] == PowerRead(op, m) && op.Insert? && FreeLocks(s, PairLocks(c, op.key, m))
    requires InPair(m, c.hash(op.key), pos.bucket) && pos.slot < c.slots && pos !in s.table &&
             !SeenInPair(c, s, op.key, m)
    requires !InPair(s.mask, c.hash(op.key), pos.bucket)
    ensures Follows(c, states, moves, t) && states[0] == s
    ensures var last := states[|states| - 1]; last.mask == s.mask && !Placed(c, last.table, last.mask)
  {
    hide InPair, PairLocks;
    states, moves := TornInsertLands(c, s, t, op, m, pos);
    assert pos in states[|states| - 1].table;
  }

  /** Duplicated: the key is already stored, in a bucket that the old size does not give. */
  lemma TornDuplicates(c: Config, s: State, t: Tid, op: Op, m: bv64, pos: Pos)
    returns (states: seq<State>, moves: seq<Move>)
    requires t in s.threads && s.threads[t] == PowerRead(op, m) && op.Insert? && FreeLocks(s, PairLocks(c, op.key, m))
    requires InPair(m, c.hash(op.key), pos.bucket) && pos.slot < c.slots && pos !in s.table &&
             !SeenInPair(c, s, op.key, m)
    requires InTable(s.table, op.key)
    ensures Follows(c, states, moves, t) && states[0] == s
    ensures var last := states[|states| - 1]; last.mask == s.mask && !Unique(last.table)
  {
    hide InPair, PairLocks;
    states, moves := TornInsertLands(c, s, t, op, m, pos);
    var p :| p in s.table && s.table[p].key == op.key;
    var u := states[|states| - 1].table;
    assert p in u && pos in u && u[p].key == u[pos].key && p != pos;
  }

  // ----- the condition is exact

  lemma RunJoins(c: Config, states: seq<State>, moves: seq<Move>, states2: seq<State>, moves2: seq<Move>, t: Tid)
    requires IsRun(c, states, moves) && Follows(c, states2, moves2, t) && states2[0] == states[|states| - 1]
    ensures IsRun(c, states + states2[1..], moves + moves2)
    ensures (states + states2[1..])[|moves| + |moves2|] == states2[|moves2|]
  {
    hide Next, Init;
    var u, v := states + states2[1..], moves + moves2;
    forall i | 0 <= i < |v| ensures Next(c, u[i], u[i + 1], v[i]) {
      if i < |moves| {
        assert Next(c, states[i], states[i + 1], moves[i]);
      } else {
        var j := i - |moves|;
        assert Next(c, states2[j], states2[j + 1], moves2[j]);
        assert u[i] == states2[j] && u[i + 1] == states2[j + 1];
      }
    }
  }

  lemma RunOn(c: Config, states: seq<State>, moves: seq<Move>, move: Move, s': State)
    requires IsRun(c, states, moves) && Next(c, states[|moves|], s', move)
    ensures IsRun(c, states + [s'], moves + [move])
  {
    hide Next, Init;
  }

  /** Two threads and an empty table; the first has loaded the size m, then the table has doubled n times. */
  function Overtaken(op: Op, m: bv64, n: nat): State {
    State(map[], CuckooStripe.Grown(m, n), n, map[], map[], map[0 := PowerRead(op, m), 1 := Idle])
  }

  lemma {:induction false} OvertakenIsReached(c: Config, op: Op, m: bv64, n: nat)
    returns (states: seq<State>, moves: seq<Move>)
    requires IsMask(m) && (n > 0 ==> CuckooStripe.Grown(m, n - 1) != CuckooStripe.ALL_ONES)
    ensures IsRun(c, states, moves) && states[0].mask == m && states[|moves|] == Overtaken(op, m, n)
  {
    hide IsMask, Doubled, NextThread;
    if n == 0 {
      var s0 := State(map[], m, 0, map[], map[], map[0 := Idle, 1 := Idle]);
      var s1 := s0.(threads := map[0 := Fresh(op), 1 := Idle]);
      OvertakenStarts(c, op, m);
      states, moves := [s0, s1, Overtaken(op, m, 0)], [ThreadMove(0, Call(op)), ThreadMove(0, LoadPower)];
    } else {
      if n > 1 {
        CuckooStripe.DoubledOnes(CuckooStripe.Grown(m, n - 2));
      }
      states, moves := OvertakenIsReached(c, op, m, n - 1);
      assert CD.AllMoved(c, CuckooStripe.Grown(m, n - 1), map[], map[]);
      RunOn(c, states, moves, ResizeMove, Overtaken(op, m, n));
      states, moves := states + [Overtaken(op, m, n)], moves + [ResizeMove];
    }
  }

  lemma OvertakenStarts(c: Config, op: Op, m: bv64)
    ensures var s0 := State(map[], m, 0, map[], map[], map[0 := Idle, 1 := Idle]);
            var s1 := s0.(threads := map[0 := Fresh(op), 1 := Idle]);
            && NextThread(c, s0, s1, 0, Call(op)) && NextThread(c, s1, Overtaken(op, m, 0), 0, LoadPower)
  {
    var s0 := State(map[], m, 0, map[], map[], map[0 := Idle, 1 := Idle]);
    var s1 := s0.(threads := map[0 := Fresh(op), 1 := Idle]);
    assert s0.threads[0 := Fresh(op)] == s1.threads;
    assert s1.threads[0 := PowerRead(op, m)] == map[0 := PowerRead(op, m), 1 := Idle];
  }

  /** The condition is exact: for every size, every number of doublings between the two loads and every key that these
      give different buckets, some run from the initial state ends with the key misplaced or stored twice. */
  lemma TornBreaks(c: Config, op: Op, m: bv64, n: nat) returns (states: seq<State>, moves: seq<Move>)
    requires c.slots > 0 && op.Insert? && IsMask(m)
    requires n > 0 ==> CuckooStripe.Grown(m, n - 1) != CuckooStripe.ALL_ONES
    requires !SamePair(c.hash(op.key), m, CuckooStripe.Grown(m, n))
    ensures IsRun(c, states, moves) && states[0].mask == m
    ensures var last := states[|moves|];
            last.mask == CuckooStripe.Grown(m, n) && (!Placed(c, last.table, last.mask) || !Unique(last.table))
  {
    hide InPair, PairLocks, SamePair, First, Placed, Unique, IsMask, Follows, IsRun, CuckooStripe.Grown, Inserted;
    var hash, m' := c.hash(op.key), CuckooStripe.Grown(m, n);
    var b := PairsDiffer(hash, m, m');
    var s := Overtaken(op, m, n);
    states, moves := OvertakenIsReached(c, op, m, n);
    RunLength(c, states, moves);
    var states2, moves2;
    if InPair(m, hash, b) {
      NeverSeen(c, s, op.key, m);
      states2, moves2 := TornMisplaces(c, s, 0, op, m, Pos(b, 0));
    } else {
      var u, v, w := SecondInserts(c, op, m, n, b);
      FollowsFrom(c, u, v, 1);
      RunJoins(c, states, moves, u, v, 1);
      states, moves := states + u[1..], moves + v;
      NeverSeen(c, w, op.key, m);
      FirstInPair(m, hash);
      states2, moves2 := TornDuplicates(c, w, 0, op, m, Pos(First(m, hash), 0));
    }
    FollowsFrom(c, states2, moves2, 0);
    RunJoins(c, states, moves, states2, moves2, 0);
    states, moves := states + states2[1..], moves + moves2;
  }

  lemma RunLength(c: Config, states: seq<State>, moves: seq<Move>)
    requires IsRun(c, states, moves)
    ensures |states| == |moves| + 1
  {
    hide Next, Init;
  }

  /** The second thread meanwhile inserts the key into a bucket that the old size does not give. */
  lemma SecondInserts(c: Config, op: Op, m: bv64, n: nat, b: bv64)
    returns (states: seq<State>, moves: seq<Move>, last: State)
    requires c.slots > 0 && op.Insert? && InPair(CuckooStripe.Grown(m, n), c.hash(op.key), b)
    ensures Follows(c, states, moves, 1) && states[0] == Overtaken(op, m, n) && states[|moves|] == last
    ensures last.table == map[Pos(b, 0) := Entry(op.key, op.value)] && last.mask == CuckooStripe.Grown(m, n)
    ensures last.locks == map[] && 0 in last.threads && last.threads[0] == PowerRead(op, m)
  {
    hide InPair, PairLocks, Follows, NextThread, CuckooStripe.Grown;
    var s, m' := Overtaken(op, m, n), CuckooStripe.Grown(m, n);
    var s1 := s.(threads := map[0 := PowerRead(op, m), 1 := Fresh(op)]);
    var s2 := s.(threads := map[0 := PowerRead(op, m), 1 := PowerRead(op, m')]);
    SecondStarts(c, op, m, n);
    NeverSeen(c, s2, op.key, m');
    var u, v := TornInsertLands(c, s2, 1, op, m', Pos(b, 0));
    last := Inserted(s2, 1, op, Pos(b, 0));
    states, moves := [s, s1] + u, [ThreadMove(1, Call(op)), ThreadMove(1, LoadPower)] + v;
    FollowsFrom(c, u, v, 1);
    FollowsAfter(c, s, s1, u, v, 1, Call(op), LoadPower);
    assert map[][Pos(b, 0) := Entry(op.key, op.value)] == map[Pos(b, 0) := Entry(op.key, op.value)];
  }

  lemma SecondStarts(c: Config, op: Op, m: bv64, n: nat)
    ensures var s, m' := Overtaken(op, m, n), CuckooStripe.Grown(m, n);
            var s1 := s.(threads := map[0 := PowerRead(op, m), 1 := Fresh(op)]);
            var s2 := s.(threads := map[0 := PowerRead(op, m), 1 := PowerRead(op, m')]);
            NextThread(c, s, s1, 1, Call(op)) && NextThread(c, s1, s2, 1, LoadPower)
  {
    hide CuckooStripe.Grown;
    var s, m' := Overtaken(op, m, n), CuckooStripe.Grown(m, n);
    assert s.threads[1 := Fresh(op)] == map[0 := PowerRead(op, m), 1 := Fresh(op)];
    assert map[0 := PowerRead(op, m), 1 := Fresh(op)][1 := PowerRead(op, m')] ==
           map[0 := PowerRead(op, m), 1 := PowerRead(op, m')];
  }

  lemma FollowsAfter(c: Config, s: State, s1: State, u: seq<State>, v: seq<Move>, t: Tid, a: Step, b: Step)
    requires Follows(c, u, v, t) && NextThread(c, s, s1, t, a) && NextThread(c, s1, u[0], t, b)
    ensures Follows(c, [s, s1] + u, [ThreadMove(t, a), ThreadMove(t, b)] + v, t)
  {
    hide NextThread;
    var states, moves := [s, s1] + u, [ThreadMove(t, a), ThreadMove(t, b)] + v;
    forall i | 0 <= i < |moves|
      ensures moves[i].ThreadMove? && moves[i].t == t && Next(c, states[i], states[i + 1], moves[i])
    {
      if i >= 2 {
        assert Next(c, u[i - 2], u[i - 1], v[i - 2]);
      }
    }
  }

  lemma FirstInPair(m: bv64, hash: bv64)
    ensures InPair(m, hash, First(m, hash))
  {
    hide First, Second;
  }

  lemma NeverSeen(c: Config, s: State, key: Key, m: bv64)
    requires forall p :: p in s.table ==> !InPair(m, c.hash(key), p.bucket)
    ensures !SeenInPair(c, s, key, m)
  {
    hide InPair;
  }

  lemma TwoSizes()
    ensures First(1, 2) == 0 && Second(1, 2) == 1 && First(3, 2) == 2 && Second(3, 2) == 1
  {
    assert PartialKey(2) == 2;
    assert Tag(2) == 0x53edf6ba1375bcbf;
  }

  const ONE_HASH: Config := Config((k: Key) => 2 as bv64, 1)

  /** A table of two buckets doubles between the two loads of an insertion. The counter check then passes,
      the key goes to a bucket computed for the old size, and the placement invariant is broken. */
  lemma TornSnapshotMisplaces() returns (states: seq<State>, moves: seq<Move>)
    ensures IsRun(ONE_HASH, states, moves) && states[0].mask == 1 && !Untorn(ONE_HASH, states, moves)
    ensures var last := states[|moves|]; last.mask == 3 && !Placed(ONE_HASH, last.table, last.mask)
  {
    TwoSizes();
    var op := Insert(9, 7);
    assert IsMask(1) && CuckooStripe.Grown(1, 0) == 1 && CuckooStripe.Grown(1, 1) == 3;
    assert InPair(1, ONE_HASH.hash(9), 0) && !InPair(3, ONE_HASH.hash(9), 0);
    hide InPair, PairLocks, Placed, IsRun, Follows, CuckooStripe.Grown, IsMask, Untorn, Inv;
    states, moves := OvertakenIsReached(ONE_HASH, op, 1, 1);
    RunLength(ONE_HASH, states, moves);
    var s := Overtaken(op, 1, 1);
    NeverSeen(ONE_HASH, s, 9, 1);
    var states2, moves2 := TornMisplaces(ONE_HASH, s, 0, op, 1, Pos(0, 0));
    FollowsFrom(ONE_HASH, states2, moves2, 0);
    RunJoins(ONE_HASH, states, moves, states2, moves2, 0);
    states, moves := states + states2[1..], moves + moves2;
    RunLength(ONE_HASH, states, moves);
    if Untorn(ONE_HASH, states, moves) {
      RunsAreSafe(ONE_HASH, states, moves, |moves|);
      SoundIsPlaced(ONE_HASH, states[|moves|]);
    }
  }

  lemma SoundIsPlaced(c: Config, s: State)
    requires Inv(c, s)
    ensures IsMask(s.mask) && Placed(c, s.table, s.mask)
  {
    hide IsMask, Placed, Unique, HoldsLocks, ThreadsInv, Sum;
  }
}
