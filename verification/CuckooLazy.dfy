/** The cuckoo map while a doubling is being migrated. Each lock knows whether its part of the old array has been
    moved; taking a lock moves that part, and finds, insertions, erasures and hops go on in the half-migrated table.
    Such a state stands for the state of CuckooMap in which everything has been moved, and every step for the same step
    there. */
module CuckooLazy {
  import opened Wrappers
  import opened CuckooIndex
  import opened CuckooMap
  import CuckooStripe
  import CD = CuckooDoubling
  import CS = CuckooSafety
  import CP = CuckooProgress

  type Table = map<Pos, Entry>

  /** `s.table` is the new array; `prior` is the old one, of mask m, of which the locks in `waiting` have not yet moved
      their part. */
  datatype Lazy = Lazy(s: State, m: bv64, prior: Table, waiting: iset<Lock>)

  /** What is still to be moved, at its destinations. */
  ghost function Rest(c: Config, z: Lazy): Table {
    var r := CD.Spread(c, z.m, z.prior);
    map q | q in r && LockOf(q.bucket) in z.waiting :: r[q]
  }

  /** The state with everything moved. */
  ghost function Abs(c: Config, z: Lazy): State {
    z.s.(table := z.s.table + Rest(c, z))
  }

  /** rehash_lock. */
  ghost function Migrated(c: Config, z: Lazy, l: Lock): Lazy {
    if l in z.waiting then
      z.(s := z.s.(table := z.s.table + CD.LockPart(c, z.m, z.prior, l.ind)), waiting := z.waiting - iset{l})
    else z
  }

  // ----- the steps

  datatype LazyMove = ThreadStep(t: Tid, step: Step) | Peek(lock: Lock) | Double

  /** A step of a thread; a lock that is taken is rehashed before anything behind it is looked at. */
  ghost predicate NextLazyThread(c: Config, z: Lazy, z': Lazy, t: Tid, step: Step) {
    exists mid :: NextThread(c, z.s, mid, t, step) && z' == Settled(c, z.(s := mid), step)
  }

  ghost function Settled(c: Config, z: Lazy, step: Step): Lazy {
    if step.TakeLock? && step.lock in z.s.locks then Migrated(c, z, step.lock) else z
  }

  /** cuckoo_fast_double under all locks: what is still waiting is moved first. A large table is then left to be
      migrated lock by lock, a small one is moved at once. */
  ghost predicate NextDouble(c: Config, z: Lazy, z': Lazy) {
    && z.s.locks == map[] && z.s.mask != CuckooStripe.ALL_ONES
    && var full, grown := Abs(c, z).table, z.s.(mask := Doubled(z.s.mask), gen := z.s.gen + 1);
    if z.s.mask >= CD.LOCK_MASK then
      z' == Lazy(grown.(table := map[]), z.s.mask, full, iset b: bv64 :: LockOf(b))
    else
      z' == Lazy(grown.(table := CD.Spread(c, z.s.mask, full)), z.s.mask, full, iset{})
  }

  /** `Peek` is a search that locks one bucket to look into it. */
  ghost predicate NextLazy(c: Config, z: Lazy, z': Lazy, m: LazyMove) {
    match m
    case ThreadStep(t, step) => NextLazyThread(c, z, z', t, step)
    case Peek(l) => l !in z.s.locks && z' == Migrated(c, z, l)
    case Double => NextDouble(c, z, z')
  }

  /** A lock that is free can be peeked behind, and the table can double while no lock is held. */
  lemma MigrationCan(c: Config, z: Lazy, l: Lock)
    ensures (exists z' :: NextLazy(c, z, z', Peek(l))) <==> l !in z.s.locks
    ensures (exists z' :: NextLazy(c, z, z', Double)) <==> z.s.locks == map[] && z.s.mask != CuckooStripe.ALL_ONES
  {
    hide Migrated, NextDouble, NextLazyThread;
    if l !in z.s.locks {
      assert NextLazy(c, z, Migrated(c, z, l), Peek(l));
    }
    DoubleCan(c, z);
    if z' :| NextDouble(c, z, z') {
      assert NextLazy(c, z, z', Double);
    }
  }

  lemma DoubleCan(c: Config, z: Lazy)
    ensures (exists z' :: NextDouble(c, z, z')) <==> z.s.locks == map[] && z.s.mask != CuckooStripe.ALL_ONES
  {
    hide Abs, CD.Spread, LockOf, Doubled;
    if z.s.locks == map[] && z.s.mask != CuckooStripe.ALL_ONES {
      var full, grown := Abs(c, z).table, z.s.(mask := Doubled(z.s.mask), gen := z.s.gen + 1);
      if z.s.mask >= CD.LOCK_MASK {
        assert NextDouble(c, z, Lazy(grown.(table := map[]), z.s.mask, full, iset b: bv64 :: LockOf(b)));
      } else {
        assert NextDouble(c, z, Lazy(grown.(table := CD.Spread(c, z.s.mask, full)), z.s.mask, full, iset{}));
      }
    }
  }

  // ----- the invariant

  /** Nothing is stored in a part of the new array that is still to be filled, and nobody holds its lock. */
  ghost predicate LazyInv(c: Config, z: Lazy) {
    && (forall q :: q in z.s.table ==> LockOf(q.bucket) !in z.waiting)
    && (forall l :: l in z.s.locks ==> l !in z.waiting)
    && (z.waiting != iset{} ==>
          CD.MaskFacts(z.m) && z.m >= CD.LOCK_MASK && CD.Sized(c, z.m, z.prior) && z.s.mask == Doubled(z.m))
  }

  /** A migration changes nothing: the entries are where they were taken to be already. */
  lemma MigrationPreserves(c: Config, z: Lazy, l: Lock)
    ensures Abs(c, Migrated(c, z, l)) == Abs(c, z)
  {
    hide CD.Spread, CD.MaskFacts, CD.Sized, CD.LockPart, LockOf, Rest;
    if l in z.waiting {
      var z' := Migrated(c, z, l);
      MovedPart(c, z, l);
      MovedRest(c, z, z', l);
      var full, full' := z.s.table + Rest(c, z), z'.s.table + Rest(c, z');
      assert full'.Keys == full.Keys;
      assert full' == full;
    }
  }

  lemma MovedPart(c: Config, z: Lazy, l: Lock)
    requires l in z.waiting
    ensures var part, rest := CD.LockPart(c, z.m, z.prior, l.ind), Rest(c, z);
            && (forall q :: q in part <==> q in rest && LockOf(q.bucket) == l)
            && (forall q :: q in part ==> part[q] == rest[q])
  {
    hide CD.Spread, LockInd;
  }

  lemma MovedRest(c: Config, z: Lazy, z': Lazy, l: Lock)
    requires z'.m == z.m && z'.prior == z.prior && z'.waiting == z.waiting - iset{l}
    ensures var rest, rest' := Rest(c, z), Rest(c, z');
            && (forall q :: q in rest' <==> q in rest && LockOf(q.bucket) != l)
            && (forall q :: q in rest' ==> rest'[q] == rest[q])
  {
    hide CD.Spread, LockOf;
  }

  // ----- each step is a step of the map

  function Over(s: State, rest: Table): State {
    s.(table := s.table + rest)
  }

  /** What waits is neither in the new array nor behind these locks. */
  ghost predicate Apart(s: State, rest: Table, ls: set<Lock>) {
    forall q :: q in rest ==> q !in s.table && LockOf(q.bucket) !in ls
  }

  /** Steps that do not look at the table. */
  predicate Blind(step: Step) {
    || step.Call? || step.LoadPower? || step.LoadCounter? || step.StartLocking? || step.TakeLock?
    || step.PathFound? || step.PathFailed?
  }

  predicate Writes(step: Step) {
    step.EraseHit? || step.Hop1? || step.Add?
  }

  lemma GotoOver(c: Config, s: State, t: Tid, p: Phase, rest: Table)
    requires t in s.threads
    ensures Goto(c, Over(s, rest), t, p) == Over(Goto(c, s, t, p), rest)
  {
    hide Needs;
  }

  lemma BlindOver(c: Config, s: State, mid: State, t: Tid, step: Step, rest: Table)
    requires NextThread(c, s, mid, t, step) && Blind(step)
    ensures NextThread(c, Over(s, rest), Over(mid, rest), t, step) && mid.table == s.table
  {
    if step.TakeLock? {
      TakeOver(c, s, mid, t, step, rest);
    } else {
      CS.QuietStepGoes(c, s, mid, t, step);
      var p := s.threads[t];
      hide Needs, PathOk, Goto, LockGoal, SeenInPair, Answers, InPair;
      GotoOver(c, s, t, CS.QuietGoal(c, s, p, step), rest);
      GotoTable(c, s, t, CS.QuietGoal(c, s, p, step));
    }
  }

  lemma TakeOver(c: Config, s: State, mid: State, t: Tid, step: Step, rest: Table)
    requires NextThread(c, s, mid, t, step) && step.TakeLock?
    ensures NextThread(c, Over(s, rest), Over(mid, rest), t, step) && mid.table == s.table
  {
    hide Needs, Goto;
    var p := s.threads[t];
    GotoOver(c, s, t, Fresh(p.next.op), rest);
    GotoTable(c, s, t, Fresh(p.next.op));
  }

  lemma KeyAtOver(c: Config, s: State, rest: Table, key: Key, mask: bv64, pos: Pos)
    requires Apart(s, rest, PairLocks(c, key, mask))
    ensures KeyAt(c, Over(s, rest), key, mask, pos) <==> KeyAt(c, s, key, mask, pos)
    ensures InPair(mask, c.hash(key), pos.bucket) ==> (pos in Over(s, rest).table <==> pos in s.table)
    ensures KeyAt(c, s, key, mask, pos) ==> Over(s, rest).table[pos] == s.table[pos]
  {
    hide InPair, PairLocks, LockOf;
    if InPair(mask, c.hash(key), pos.bucket) {
      CS.PairIsLocked(c, key, mask, pos.bucket);
    }
  }

  lemma SeenOver(c: Config, s: State, rest: Table, key: Key, mask: bv64)
    requires Apart(s, rest, PairLocks(c, key, mask))
    ensures SeenInPair(c, Over(s, rest), key, mask) <==> SeenInPair(c, s, key, mask)
    ensures forall found :: Answers(c, s, key, mask, found) ==> Answers(c, Over(s, rest), key, mask, found)
  {
    hide Apart, InPair, PairLocks;
    forall pos
      ensures KeyAt(c, Over(s, rest), key, mask, pos) <==> KeyAt(c, s, key, mask, pos)
    {
      KeyAtOver(c, s, rest, key, mask, pos);
    }
    forall found | Answers(c, s, key, mask, found) ensures Answers(c, Over(s, rest), key, mask, found) {
      if found.Some? {
        var pos :| KeyAt(c, s, key, mask, pos) && s.table[pos].value == found.value;
        KeyAtOver(c, s, rest, key, mask, pos);
      }
    }
  }

  /** Steps that look at the table behind the locks the thread holds. */
  lemma ReadOver(c: Config, s: State, mid: State, t: Tid, step: Step, rest: Table)
    requires NextThread(c, s, mid, t, step) && !Blind(step) && !Writes(step) && !step.Land?
    requires Apart(s, rest, Needs(c, s.threads[t]))
    ensures NextThread(c, Over(s, rest), Over(mid, rest), t, step) && mid.table == s.table
  {
    hide InPair, PairLocks, Answers, SeenInPair, Apart, PathOk;
    var p := s.threads[t];
    assert p.Looking? || p.Freed?;
    assert Needs(c, p) == PairLocks(c, p.op.key, p.snap.mask);
    SeenOver(c, s, rest, p.op.key, p.snap.mask);
    forall pos: Pos | InPair(p.snap.mask, c.hash(p.op.key), pos.bucket)
      ensures pos in Over(s, rest).table <==> pos in s.table
    {
      KeyAtOver(c, s, rest, p.op.key, p.snap.mask, pos);
    }
  }

  lemma LandOver(c: Config, s: State, mid: State, t: Tid, rest: Table)
    requires NextThread(c, s, mid, t, Land) && Apart(s, rest, Needs(c, s.threads[t]))
    requires PhaseInv(c, Over(s, rest), s.threads[t])
    ensures NextThread(c, Over(s, rest), Over(mid, rest), t, Land) && mid.table == s.table
  {
    hide InPair, PairLocks, Apart, SnapOk;
    var p := s.threads[t];
    KeyAtOver(c, s, rest, p.op.key, p.snap.mask, p.path[0].pos);
  }

  lemma EraseOver(c: Config, s: State, mid: State, t: Tid, step: Step, rest: Table)
    requires NextThread(c, s, mid, t, step) && step.EraseHit? && Apart(s, rest, Needs(c, s.threads[t]))
    ensures NextThread(c, Over(s, rest), Over(mid, rest), t, step)
    ensures forall q :: q in mid.table ==> q in s.table
  {
    hide InPair, PairLocks, LockOf;
    var p := s.threads[t];
    assert Needs(c, p) == PairLocks(c, p.op.key, p.snap.mask);
    KeyAtOver(c, s, rest, p.op.key, p.snap.mask, step.pos);
    EraseBeside(s.table, rest, step.pos);
    hide Goto, Needs, Apart;
    GotoOver(c, s, t, Idle, rest);
    GotoTable(c, s, t, Idle);
  }

  lemma AddOver(c: Config, s: State, mid: State, t: Tid, rest: Table)
    requires NextThread(c, s, mid, t, Add) && Apart(s, rest, Needs(c, s.threads[t]))
    requires PhaseInv(c, Over(s, rest), s.threads[t])
    ensures NextThread(c, Over(s, rest), Over(mid, rest), t, Add)
    ensures forall q :: q in mid.table ==> q in s.table || LockOf(q.bucket) in Needs(c, s.threads[t])
  {
    hide PairLocks, LockOf, PhaseInv, Needs, Goto, NextThread;
    CS.AddStep(c, s, mid, t, Add);
    var p := s.threads[t];
    ReadyIsLocked(c, Over(s, rest), p);
    var e := Entry(p.op.key, p.op.value);
    AddBeside(s.table, rest, p.pos, e);
    GotoOver(c, s, t, Idle, rest);
    GotoTable(c, s, t, Idle);
    AddHappens(c, Over(s, rest), Over(mid, rest), t);
  }

  lemma ReadyIsLocked(c: Config, s: State, p: Phase)
    requires p.Ready? && PhaseInv(c, s, p)
    ensures LockOf(p.pos.bucket) in Needs(c, p)
  {
    hide InPair, PairLocks, LockOf, SnapOk, InTable;
    CS.PairIsLocked(c, p.op.key, p.snap.mask, p.pos.bucket);
  }

  lemma AddHappens(c: Config, s: State, s': State, t: Tid)
    requires t in s.threads && s.threads[t].Ready? && s.threads[t].op.Insert?
    requires var p := s.threads[t];
             s' == Goto(c, s, t, Idle).(table := s.table[p.pos := Entry(p.op.key, p.op.value)],
                                        counters := s.counters[LockOf(p.pos.bucket) :=
                                                                 Counter(s, LockOf(p.pos.bucket)) + 1])
    ensures NextThread(c, s, s', t, Add)
  {
    hide Goto, LockOf;
  }

  lemma HopOver(c: Config, s: State, mid: State, t: Tid, rest: Table)
    requires NextThread(c, s, mid, t, Hop1) && Apart(s, rest, Needs(c, s.threads[t]))
    ensures NextThread(c, Over(s, rest), Over(mid, rest), t, Hop1)
    ensures forall q :: q in mid.table ==> q in s.table || LockOf(q.bucket) in Needs(c, s.threads[t])
  {
    hide PairLocks, LockOf, Goto, Needs, NextThread, CS.AfterHop;
    CS.HopStep(c, s, mid, t, Hop1);
    var p := s.threads[t];
    var from, to := p.path[p.depth - 1].pos, p.path[p.depth].pos;
    HopNeeds(c, p);
    assert from !in rest && to !in rest;
    GotoOver(c, s, t, Searching(p.op, p.snap), rest);
    GotoOver(c, s, t, CS.AfterHop(p), rest);
    GotoTable(c, s, t, CS.AfterHop(p));
    GotoTable(c, s, t, Searching(p.op, p.snap));
    StaleOver(c, s, p, rest);
    if !CS.Stale(c, s, p) {
      MoveBeside(s.table, rest, from, to);
    }
    CS.HopHappens(c, Over(s, rest), Over(mid, rest), t);
  }

  lemma StaleOver(c: Config, s: State, p: Phase, rest: Table)
    requires p.Swapping? && 0 < p.depth < |p.path|
    requires p.path[p.depth - 1].pos !in rest && p.path[p.depth].pos !in rest
    ensures CS.Stale(c, Over(s, rest), p) <==> CS.Stale(c, s, p)
  {}

  // ----- writing beside the rest

  lemma MoveBeside(table: Table, rest: Table, from: Pos, to: Pos)
    requires from in table && from !in rest && to !in rest
    ensures from in table + rest
    ensures ((table + rest) - {from})[to := (table + rest)[from]] == (table - {from})[to := table[from]] + rest
  {}

  lemma EraseBeside(table: Table, rest: Table, pos: Pos)
    requires pos !in rest
    ensures (table + rest) - {pos} == (table - {pos}) + rest
  {}

  lemma AddBeside(table: Table, rest: Table, pos: Pos, e: Entry)
    requires pos !in rest
    ensures (table + rest)[pos := e] == table[pos := e] + rest
  {}

  lemma HopNeeds(c: Config, p: Phase)
    requires p.Swapping? && 0 < p.depth < |p.path|
    ensures LockOf(p.path[p.depth - 1].pos.bucket) in Needs(c, p) && LockOf(p.path[p.depth].pos.bucket) in Needs(c, p)
  {
    hide PairLocks, LockOf;
  }

  lemma GotoTable(c: Config, s: State, t: Tid, p: Phase)
    requires t in s.threads
    ensures Goto(c, s, t, p).table == s.table
  {
    hide Needs;
  }

  lemma StepOver(c: Config, s: State, mid: State, t: Tid, step: Step, rest: Table)
    requires NextThread(c, s, mid, t, step) && t in s.threads && Apart(s, rest, Needs(c, s.threads[t]))
    requires PhaseInv(c, Over(s, rest), s.threads[t])
    ensures NextThread(c, Over(s, rest), Over(mid, rest), t, step)
    ensures forall q :: q in mid.table ==> q in s.table || LockOf(q.bucket) in Needs(c, s.threads[t])
  {
    hide NextThread, Apart, PhaseInv, Needs, LockOf;
    if Blind(step) {
      BlindOver(c, s, mid, t, step, rest);
    } else {
      match step
      case EraseHit(_) => EraseOver(c, s, mid, t, step, rest);
      case Add => AddOver(c, s, mid, t, rest);
      case Hop1 => HopOver(c, s, mid, t, rest);
      case Land => LandOver(c, s, mid, t, rest);
      case _ => ReadOver(c, s, mid, t, step, rest);
    }
  }

  lemma RestIsApart(c: Config, z: Lazy, t: Tid)
    requires LazyInv(c, z) && HoldsLocks(c, Abs(c, z)) && t in z.s.threads
    ensures Apart(z.s, Rest(c, z), Needs(c, z.s.threads[t]))
  {
    HeldIsMoved(c, z, t);
    hide Needs, LockOf, CD.Spread, CD.MaskFacts, CD.Sized, HoldsLocks, Abs;
    forall q | q in Rest(c, z) ensures q !in z.s.table && LockOf(q.bucket) !in Needs(c, z.s.threads[t]) {
      assert LockOf(q.bucket) in z.waiting;
    }
  }

  lemma LocksGrow(c: Config, s: State, mid: State, t: Tid, step: Step)
    requires NextThread(c, s, mid, t, step)
    ensures mid.mask == s.mask && forall l :: l in mid.locks ==> l in s.locks || (step.TakeLock? && l == step.lock)
  {
    hide Needs, PathOk, InPair, SeenInPair, Answers, LockOf;
  }

  lemma SettledIs(c: Config, z: Lazy, step: Step)
    ensures Abs(c, Settled(c, z, step)) == Abs(c, z)
  {
    hide Abs, Migrated;
    if step.TakeLock? {
      MigrationPreserves(c, z, step.lock);
    }
  }

  /** A step in the half-migrated table is the same step in the table with everything moved. */
  lemma StepRefines(c: Config, z: Lazy, z': Lazy, t: Tid, step: Step)
    requires LazyInv(c, z) && Inv(c, Abs(c, z)) && NextLazyThread(c, z, z', t, step)
    ensures NextThread(c, Abs(c, z), Abs(c, z'), t, step) && LazyInv(c, z')
  {
    hide NextThread, Needs, PhaseInv, Apart, Settled, LazyInv, Rest, Placed, Unique, HoldsLocks, Sum;
    var mid :| NextThread(c, z.s, mid, t, step) && z' == Settled(c, z.(s := mid), step);
    var rest := Rest(c, z);
    StepThread(c, z.s, mid, t, step);
    RestIsApart(c, z, t);
    assert PhaseInv(c, Over(z.s, rest), z.s.threads[t]);
    StepOver(c, z.s, mid, t, step, rest);
    RestStays(c, z, mid);
    SettledIs(c, z.(s := mid), step);
    SettledKeeps(c, z, mid, t, step);
  }

  lemma StepThread(c: Config, s: State, mid: State, t: Tid, step: Step)
    requires NextThread(c, s, mid, t, step)
    ensures t in s.threads
  {}

  lemma RestStays(c: Config, z: Lazy, mid: State)
    ensures Rest(c, z.(s := mid)) == Rest(c, z)
  {
    hide CD.Spread, LockOf;
  }

  lemma SettledKeeps(c: Config, z: Lazy, mid: State, t: Tid, step: Step)
    requires LazyInv(c, z) && HoldsLocks(c, Abs(c, z)) && NextThread(c, z.s, mid, t, step) && t in z.s.threads
    requires forall q :: q in mid.table ==> q in z.s.table || LockOf(q.bucket) in Needs(c, z.s.threads[t])
    ensures LazyInv(c, Settled(c, z.(s := mid), step))
  {
    LocksGrow(c, z.s, mid, t, step);
    HeldIsMoved(c, z, t);
    var l := if step.TakeLock? then Some(step.lock) else None;
    hide HoldsLocks, Abs, NextThread, Needs, LazyInv, Migrated, LockOf;
    StillLazy(c, z, mid, Needs(c, z.s.threads[t]), l);
  }

  lemma StillLazy(c: Config, z: Lazy, mid: State, held: set<Lock>, l: Option<Lock>)
    requires LazyInv(c, z) && mid.mask == z.s.mask
    requires forall q :: q in mid.table ==> q in z.s.table || LockOf(q.bucket) in held
    requires forall k :: k in held ==> k !in z.waiting
    requires forall k :: k in mid.locks ==> k in z.s.locks || l == Some(k)
    ensures l.None? ==> LazyInv(c, z.(s := mid))
    ensures l.Some? ==> LazyInv(c, Migrated(c, z.(s := mid), l.value))
    ensures l.Some? && l.value !in mid.locks ==> LazyInv(c, z.(s := mid))
  {
    hide LockOf, Rest, CD.MaskFacts, CD.Sized, CD.Spread, Migrated, Doubled;
    assert forall q :: q in mid.table ==> LockOf(q.bucket) !in z.waiting;
    if l.Some? {
      MigratedKeeps(c, z.(s := mid), l.value);
    }
  }

  lemma HeldIsMoved(c: Config, z: Lazy, t: Tid)
    requires LazyInv(c, z) && HoldsLocks(c, Abs(c, z)) && t in z.s.threads
    ensures forall l :: l in Needs(c, z.s.threads[t]) ==> l !in z.waiting
  {
    hide Needs, LockOf, Rest, CD.MaskFacts, CD.Sized, Doubled;
    assert Abs(c, z).locks == z.s.locks && Abs(c, z).threads == z.s.threads;
  }

  /** After a lock was rehashed it may be held. */
  lemma MigratedKeeps(c: Config, z: Lazy, l: Lock)
    requires (forall q :: q in z.s.table ==> LockOf(q.bucket) !in z.waiting)
    requires (forall k :: k in z.s.locks ==> k == l || k !in z.waiting)
    requires z.waiting != iset{} ==>
               CD.MaskFacts(z.m) && z.m >= CD.LOCK_MASK && CD.Sized(c, z.m, z.prior) && z.s.mask == Doubled(z.m)
    ensures LazyInv(c, Migrated(c, z, l))
  {
    hide LockOf, Rest, CD.MaskFacts, CD.Sized, CD.Spread, CD.LockPart, Doubled;
    if l in z.waiting {
      MovedPart(c, z, l);
    }
  }

  /** A peek is no step at all. */
  lemma PeekRefines(c: Config, z: Lazy, l: Lock)
    requires LazyInv(c, z)
    ensures Abs(c, Migrated(c, z, l)) == Abs(c, z) && LazyInv(c, Migrated(c, z, l))
  {
    MigrationPreserves(c, z, l);
    hide Abs, Migrated, LockOf;
    MigratedKeeps(c, z, l);
  }

  /** A doubling, left to be migrated or carried out at once, is a resize of the whole table. */
  lemma DoubleRefines(c: Config, z: Lazy, z': Lazy)
    requires LazyInv(c, z) && Inv(c, Abs(c, z)) && NextDouble(c, z, z')
    ensures CD.Resize(c, Abs(c, z), Abs(c, z')) && LazyInv(c, z')
  {
    hide Inv, Placed, CD.Sized, CD.AllMoved, Doubled, CD.Spread, LazyInv, IsMask, NextDouble, Abs, CD.MaskFacts;
    hide CD.Resize, Unique, HoldsLocks, ThreadsInv, Sum, Rest, LockOf;
    CS.SoundIsPlaced(c, Abs(c, z));
    var full := Abs(c, z).table;
    AbsIs(c, z);
    DoubleFacts(c, z, z');
    MaskFactsAre(z.s.mask);
    CD.PlacedIsSized(c, full, z.s.mask);
    CD.SpreadIsAllMoved(c, z.s.mask, full);
    DoubledKeeps(c, z, z');
    DoubledAbs(c, z, z');
    ResizeIs(c, Abs(c, z), Abs(c, z'), CD.Spread(c, z.s.mask, full));
  }

  lemma MaskFactsAre(m: bv64)
    requires IsMask(m) && m != CuckooStripe.ALL_ONES
    ensures CD.MaskFacts(m)
  {}

  lemma ResizeIs(c: Config, s: State, s': State, t: Table)
    requires s.locks == map[] && s.mask != CuckooStripe.ALL_ONES && CD.AllMoved(c, s.mask, s.table, t)
    requires s' == s.(table := t, mask := Doubled(s.mask), gen := s.gen + 1)
    ensures CD.Resize(c, s, s')
  {
    hide CD.AllMoved, Doubled;
  }

  lemma AbsIs(c: Config, z: Lazy)
    ensures Abs(c, z).mask == z.s.mask
  {
    hide Rest;
  }

  lemma DoubleFacts(c: Config, z: Lazy, z': Lazy)
    requires NextDouble(c, z, z')
    ensures z.s.mask != CuckooStripe.ALL_ONES
  {
    hide Abs, CD.Spread;
  }

  lemma DoubledAbs(c: Config, z: Lazy, z': Lazy)
    requires NextDouble(c, z, z')
    ensures var a := Abs(c, z);
            Abs(c, z') == a.(table := CD.Spread(c, z.s.mask, a.table), mask := Doubled(z.s.mask), gen := a.gen + 1)
    ensures Abs(c, z).locks == map[]
  {
    hide CD.Spread, Doubled;
    NothingMoved(c, z');
    hide Rest, LockOf;
    var r := CD.Spread(c, z.s.mask, Abs(c, z).table);
    assert map[] + r == r && r + map[] == r;
  }

  lemma DoubledKeeps(c: Config, z: Lazy, z': Lazy)
    requires NextDouble(c, z, z') && CD.MaskFacts(z.s.mask) && CD.Sized(c, z.s.mask, Abs(c, z).table)
    ensures LazyInv(c, z')
  {
    hide CD.Sized, CD.MaskFacts, Doubled, Rest, LockOf, CD.Spread;
  }

  lemma NothingMoved(c: Config, z: Lazy)
    ensures z.waiting == (iset b: bv64 :: LockOf(b)) ==> Rest(c, z) == CD.Spread(c, z.m, z.prior)
    ensures z.waiting == iset{} ==> Rest(c, z) == map[]
  {
    hide CD.Spread, LockOf;
  }

  // ----- runs

  ghost predicate LazyInit(z: Lazy) {
    CS.Init(z.s) && z.waiting == iset{}
  }

  ghost predicate IsLazyRun(c: Config, zs: seq<Lazy>, moves: seq<LazyMove>) {
    && |zs| == |moves| + 1 && LazyInit(zs[0])
    && forall i :: 0 <= i < |moves| ==> NextLazy(c, zs[i], zs[i + 1], moves[i])
  }

  ghost predicate LazyUntorn(c: Config, zs: seq<Lazy>, moves: seq<LazyMove>)
    requires |zs| == |moves| + 1
  {
    forall i :: 0 <= i < |moves| && moves[i].ThreadStep? ==> !CS.Torn(c, zs[i].s, moves[i].t, moves[i].step)
  }

  /** The moves of the map: peeks are invisible. */
  function Visible(moves: seq<LazyMove>): seq<CS.Move> {
    if moves == [] then []
    else
      var ms := Visible(moves[..|moves| - 1]);
      match moves[|moves| - 1]
      case ThreadStep(t, step) => ms + [CS.ThreadMove(t, step)]
      case Peek(_) => ms
      case Double => ms + [CS.ResizeMove]
  }

  /** Every run of the table that migrates lazily is a run of the map, with the same steps of all threads and the same
      doublings, and both end in the same abstract state. */
  lemma {:induction false} RunRefines(c: Config, zs: seq<Lazy>, moves: seq<LazyMove>) returns (states: seq<State>)
    requires IsLazyRun(c, zs, moves) && LazyUntorn(c, zs, moves)
    ensures |states| == |Visible(moves)| + 1 && CS.IsRun(c, states, Visible(moves))
    ensures CS.Untorn(c, states, Visible(moves)) && states[|states| - 1] == Abs(c, zs[|moves|])
    ensures LazyInv(c, zs[|moves|]) && Inv(c, Abs(c, zs[|moves|]))
    decreases |moves|
  {
    hide NextLazy, LazyInv, Inv, Abs, CS.Next, CS.Torn, LazyInit, CS.Init;
    var n := |moves|;
    if n == 0 {
      states := [Abs(c, zs[0])];
      InitRefines(c, zs[0]);
    } else {
      var zs', moves' := zs[..n], moves[..n - 1];
      ShorterRun(c, zs, moves);
      states := RunRefines(c, zs', moves');
      var z, z' := zs[n - 1], zs[n];
      assert NextLazy(c, z, z', moves[n - 1]);
      assert zs'[|moves'|] == z;
      NextRefines(c, z, z', moves[n - 1]);
      match moves[n - 1] {
        case ThreadStep(t, step) =>
          assert !CS.Torn(c, z.s, t, step);
          TornSame(c, z, t, step);
          RunSnoc(c, states, Visible(moves'), CS.ThreadMove(t, step), Abs(c, z'));
          states := states + [Abs(c, z')];
        case Peek(_) =>
        case Double =>
          RunSnoc(c, states, Visible(moves'), CS.ResizeMove, Abs(c, z'));
          states := states + [Abs(c, z')];
      }
      RunSafe(c, states, Visible(moves));
    }
  }

  lemma ShorterRun(c: Config, zs: seq<Lazy>, moves: seq<LazyMove>)
    requires IsLazyRun(c, zs, moves) && LazyUntorn(c, zs, moves) && |moves| > 0
    ensures IsLazyRun(c, zs[..|moves|], moves[..|moves| - 1]) && LazyUntorn(c, zs[..|moves|], moves[..|moves| - 1])
  {
    hide NextLazy, CS.Torn;
  }

  lemma InitRefines(c: Config, z: Lazy)
    requires LazyInit(z)
    ensures CS.Init(Abs(c, z)) && LazyInv(c, z) && Inv(c, Abs(c, z))
  {
    hide CD.Spread, LockOf, Inv;
    assert Rest(c, z) == map[];
    CS.InitIsSound(c, Abs(c, z));
  }

  lemma TornSame(c: Config, z: Lazy, t: Tid, step: Step)
    ensures CS.Torn(c, Abs(c, z), t, step) <==> CS.Torn(c, z.s, t, step)
  {
    hide Rest, SamePair;
  }

  lemma NextRefines(c: Config, z: Lazy, z': Lazy, m: LazyMove)
    requires LazyInv(c, z) && Inv(c, Abs(c, z)) && NextLazy(c, z, z', m)
    ensures LazyInv(c, z')
    ensures m.ThreadStep? ==> CS.Next(c, Abs(c, z), Abs(c, z'), CS.ThreadMove(m.t, m.step))
    ensures m.Peek? ==> Abs(c, z') == Abs(c, z)
    ensures m.Double? ==> CS.Next(c, Abs(c, z), Abs(c, z'), CS.ResizeMove)
  {
    hide NextLazyThread, NextDouble, LazyInv, Inv, Abs, Migrated, NextThread, CD.Resize;
    match m
    case ThreadStep(t, step) => StepRefines(c, z, z', t, step);
    case Peek(l) => PeekRefines(c, z, l);
    case Double => DoubleRefines(c, z, z');
  }

  lemma RunSnoc(c: Config, states: seq<State>, moves: seq<CS.Move>, m: CS.Move, s: State)
    requires |states| == |moves| + 1 && CS.IsRun(c, states, moves) && CS.Untorn(c, states, moves)
    requires CS.Next(c, states[|moves|], s, m) && (m.ThreadMove? ==> !CS.Torn(c, states[|moves|], m.t, m.step))
    ensures CS.IsRun(c, states + [s], moves + [m]) && CS.Untorn(c, states + [s], moves + [m])
  {
    hide CS.Next, CS.Torn, CS.Init;
  }

  lemma RunSafe(c: Config, states: seq<State>, moves: seq<CS.Move>)
    requires |states| == |moves| + 1 && CS.IsRun(c, states, moves) && CS.Untorn(c, states, moves)
    ensures Inv(c, states[|moves|])
  {
    CS.RunsAreSafe(c, states, moves, |moves|);
  }

  /** Every state of every such run is sound once what waits is counted at its destinations. */
  lemma LazyRunsAreSafe(c: Config, zs: seq<Lazy>, moves: seq<LazyMove>, i: nat)
    requires IsLazyRun(c, zs, moves) && LazyUntorn(c, zs, moves) && i < |zs|
    ensures LazyInv(c, zs[i]) && Inv(c, Abs(c, zs[i]))
  {
    hide NextLazy, LazyInv, Inv, Abs, CS.Torn, LazyInit;
    var zs', moves' := zs[..i + 1], moves[..i];
    forall j | 0 <= j < |moves'| ensures NextLazy(c, zs'[j], zs'[j + 1], moves'[j]) {
      assert NextLazy(c, zs[j], zs[j + 1], moves[j]);
    }
    assert zs'[|moves'|] == zs[i];
    var _ := RunRefines(c, zs', moves');
  }

  // ----- the two arrays

  /** An entry is live in the new array, or in the old one while its lock is waiting. */
  ghost predicate Live(z: Lazy, e: Entry) {
    e in z.s.table.Values || exists p :: Waits(z, p) && z.prior[p] == e
  }

  ghost predicate Waits(z: Lazy, p: Pos) {
    p in z.prior && LockOf(p.bucket) in z.waiting
  }

  /** The live entries are the entries of the map. */
  lemma LiveIs(c: Config, z: Lazy, e: Entry)
    requires LazyInv(c, z)
    ensures Live(z, e) <==> e in Abs(c, z).table.Values
  {
    hide CD.Spread, LockOf, CD.MaskFacts, CD.Sized, Rest;
    var full := Abs(c, z).table;
    if e in z.s.table.Values {
      var p :| p in z.s.table && z.s.table[p] == e;
      InNewArray(c, z, p);
      assert p in full && full[p] == e;
    }
    if p :| Waits(z, p) && z.prior[p] == e {
      var q := WaitsAt(c, z, p);
      assert q in full && full[q] == e;
    }
    if e in full.Values {
      var q :| q in full && full[q] == e;
      if q in Rest(c, z) {
        var p := RestFrom(c, z, q);
      } else {
        assert z.s.table[q] == e;
      }
    }
  }

  lemma InNewArray(c: Config, z: Lazy, p: Pos)
    requires LazyInv(c, z) && p in z.s.table
    ensures p !in Rest(c, z)
  {
    hide CD.Spread, LockOf, CD.MaskFacts, CD.Sized;
  }

  lemma WaitsAt(c: Config, z: Lazy, p: Pos) returns (q: Pos)
    requires LazyInv(c, z) && Waits(z, p)
    ensures q in Rest(c, z) && Rest(c, z)[q] == z.prior[p]
  {
    hide CD.Spread, CD.Dest, CD.Sized, LockInd, Masked;
    q := CD.Dest(c, z.m, z.prior, p.bucket, p.slot);
    SizedAt(c, z, p);
    CD.SpreadAt(c, z.m, z.prior, p);
    DestLock(c, z.m, z.prior, p);
  }

  lemma SizedAt(c: Config, z: Lazy, p: Pos)
    requires CD.Sized(c, z.m, z.prior) && p in z.prior
    ensures Masked(p.bucket, z.m) == p.bucket
  {
    hide Masked;
  }

  lemma DestLock(c: Config, m: bv64, prior: Table, p: Pos)
    requires CD.MaskFacts(m) && m >= CD.LOCK_MASK && Masked(p.bucket, m) == p.bucket
    ensures LockInd(CD.Dest(c, m, prior, p.bucket, p.slot).bucket) == LockInd(p.bucket)
  {
    CD.DestMasked(c, m, prior, p);
    CD.LockOfMasked(CD.Dest(c, m, prior, p.bucket, p.slot).bucket, m);
    hide CD.Dest, Masked, LockInd;
  }

  lemma RestFrom(c: Config, z: Lazy, q: Pos) returns (p: Pos)
    requires LazyInv(c, z) && q in Rest(c, z)
    ensures Waits(z, p) && z.prior[p] == Rest(c, z)[q]
  {
    hide CD.Dest, CD.Sized, LockInd, Masked;
    p := CD.Origin(c, z.m, z.prior, q);
    SizedAt(c, z, p);
    DestLock(c, z.m, z.prior, p);
  }

  /** A find in the half-migrated table returns the live value of its key, and nothing exactly when no live entry has
      the key. */
  lemma FindDuringDoubling(c: Config, z: Lazy, z': Lazy, t: Tid, found: Option<Value>, v: Value)
    requires LazyInv(c, z) && Inv(c, Abs(c, z)) && NextLazyThread(c, z, z', t, ReturnFind(found))
    ensures t in z.s.threads && z.s.threads[t].Looking?
    ensures found == Some(v) <==> Live(z, Entry(z.s.threads[t].op.key, v))
    ensures found == None <==> forall w :: !Live(z, Entry(z.s.threads[t].op.key, w))
  {
    StepRefines(c, z, z', t, ReturnFind(found));
    var mid :| NextThread(c, z.s, mid, t, ReturnFind(found)) && z' == Settled(c, z.(s := mid), ReturnFind(found));
    Looks(c, z.s, mid, t, found);
    hide LazyInv, Inv, Live, Settled, InTable;
    var a, key := Abs(c, z), z.s.threads[t].op.key;
    CS.FindReturnsStored(c, a, Abs(c, z'), t, found, v);
    forall w ensures Live(z, Entry(key, w)) <==> Entry(key, w) in a.table.Values {
      LiveIs(c, z, Entry(key, w));
    }
    if found.Some? {
      CS.FindReturnsStored(c, a, Abs(c, z'), t, found, found.value);
    }
    StoredKey(a.table, key);
  }

  lemma Looks(c: Config, s: State, mid: State, t: Tid, found: Option<Value>)
    requires NextThread(c, s, mid, t, ReturnFind(found))
    ensures t in s.threads && s.threads[t].Looking?
  {}

  lemma StoredKey(table: Table, key: Key)
    ensures InTable(table, key) <==> exists w :: Entry(key, w) in table.Values
  {
    if InTable(table, key) {
      var p :| p in table && table[p].key == key;
      assert Entry(key, table[p].value) in table.Values;
    }
    if w :| Entry(key, w) in table.Values {
      var p :| p in table && table[p] == Entry(key, w);
    }
  }

  ghost predicate LiveKey(z: Lazy, key: Key) {
    exists v :: Live(z, Entry(key, v))
  }

  lemma LiveKeyIs(c: Config, z: Lazy, key: Key)
    requires LazyInv(c, z)
    ensures LiveKey(z, key) <==> InTable(Abs(c, z).table, key)
  {
    hide LazyInv, Live, Abs, InTable;
    forall v ensures Live(z, Entry(key, v)) <==> Entry(key, v) in Abs(c, z).table.Values {
      LiveIs(c, z, Entry(key, v));
    }
    StoredKey(Abs(c, z).table, key);
  }

  /** What erasures and insertions report in the half-migrated table is true of the live entries. */
  lemma ReturnsDuringDoubling(c: Config, z: Lazy, z': Lazy, t: Tid, step: Step)
    requires t in z.s.threads && (z.s.threads[t].Looking? || z.s.threads[t].Freed? || z.s.threads[t].Ready?)
    requires LazyInv(c, z) && Inv(c, Abs(c, z)) && NextLazyThread(c, z, z', t, step)
    requires !CS.Torn(c, z.s, t, step)
    ensures step.Add? ==> z.s.threads[t].op.Insert?
    ensures step.EraseMiss? ==> !LiveKey(z, z.s.threads[t].op.key)
    ensures step.InsertDuplicate? ==> LiveKey(z, z.s.threads[t].op.key)
    ensures step.EraseHit? ==> LiveKey(z, z.s.threads[t].op.key) && !LiveKey(z', z.s.threads[t].op.key)
    ensures step.Add? ==> !LiveKey(z, z.s.threads[t].op.key)
    ensures step.Add? && z.s.threads[t].op.Insert? ==>
              Live(z', Entry(z.s.threads[t].op.key, z.s.threads[t].op.value))
  {
    hide LazyInv, Inv, LiveKey, Live, Abs, InTable, NextLazyThread, NextThread, CS.Torn;
    StepRefines(c, z, z', t, step);
    TornSame(c, z, t, step);
    var a, a' := Abs(c, z), Abs(c, z');
    AbsThreads(c, z);
    CS.StepEffect(c, a, a', t, step);
    if step.EraseMiss? || step.InsertDuplicate? || step.EraseHit? || step.Add? {
      var key := a.threads[t].op.key;
      LiveKeyIs(c, z, key);
      LiveKeyIs(c, z', key);
      if step.EraseHit? {
        PosIsStored(a.table, step.pos);
      }
      if step.Add? {
        LiveIs(c, z', Entry(key, a.threads[t].op.value));
      }
    }
  }

  lemma AbsThreads(c: Config, z: Lazy)
    ensures Abs(c, z).threads == z.s.threads
  {
    hide Rest;
  }

  lemma PosIsStored(table: Table, pos: Pos)
    requires pos in table
    ensures InTable(table, table[pos].key)
  {}

  ghost predicate CanLazy(c: Config, z: Lazy, t: Tid, step: Step) {
    exists z' :: NextLazyThread(c, z, z', t, step)
  }

  lemma CanLazyIs(c: Config, z: Lazy, t: Tid, step: Step)
    ensures CanLazy(c, z, t, step) <==> CP.Can(c, z.s, t, step)
  {
    hide NextThread, Settled;
    if mid :| NextThread(c, z.s, mid, t, step) {
      assert NextLazyThread(c, z, Settled(c, z.(s := mid), step), t, step);
    }
  }

  /** ... and each of these reports is possible exactly when it is true. */
  lemma LookingDuringDoubling(c: Config, z: Lazy, t: Tid)
    requires LazyInv(c, z) && Inv(c, Abs(c, z)) && t in z.s.threads && z.s.threads[t].Looking?
    ensures var p := z.s.threads[t];
            && (p.op.Erase? ==> (CanLazy(c, z, t, EraseMiss) <==> !LiveKey(z, p.op.key)))
            && (p.op.Erase? ==> ((exists pos :: CanLazy(c, z, t, EraseHit(pos))) <==> LiveKey(z, p.op.key)))
            && (p.op.Insert? ==> (CanLazy(c, z, t, InsertDuplicate) <==> LiveKey(z, p.op.key)))
  {
    var p, a := z.s.threads[t], Abs(c, z);
    assert a.threads == z.s.threads;
    SeenIsLive(c, z, t);
    hide LazyInv, Inv, CanLazy, CP.Can, LiveKey, Abs, SeenInPair;
    CP.LookingCan(c, z.s, t);
    forall step ensures CanLazy(c, z, t, step) <==> CP.Can(c, z.s, t, step) {
      CanLazyIs(c, z, t, step);
    }
    assert (exists pos :: CanLazy(c, z, t, EraseHit(pos))) <==> exists pos :: CP.Can(c, z.s, t, EraseHit(pos)) by {
      if pos :| CP.Can(c, z.s, t, EraseHit(pos)) {
        assert CanLazy(c, z, t, EraseHit(pos));
      }
    }
  }

  lemma SeenIsLive(c: Config, z: Lazy, t: Tid)
    requires LazyInv(c, z) && Inv(c, Abs(c, z)) && t in z.s.threads && z.s.threads[t].Looking?
    ensures var p := z.s.threads[t]; SeenInPair(c, z.s, p.op.key, p.snap.mask) <==> LiveKey(z, p.op.key)
  {
    var p, a := z.s.threads[t], Abs(c, z);
    assert a.threads == z.s.threads;
    RestIsApart(c, z, t);
    assert Needs(c, p) == PairLocks(c, p.op.key, p.snap.mask);
    assert a == Over(z.s, Rest(c, z));
    hide LazyInv, Inv, LiveKey, SeenInPair, Abs, Apart, Rest, InTable;
    SeenOver(c, z.s, Rest(c, z), p.op.key, p.snap.mask);
    CS.LookupIsExact(c, a, t);
    LiveKeyIs(c, z, p.op.key);
  }
}
